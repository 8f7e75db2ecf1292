/** The `RadioshackStrip` driver: a pixel buffer written in place, a brightness
    factor, and `show()`, which waits out the latch time, streams the buffer to
    the output port bit by bit and records when it finished. */
module LedStrip {
  import opened Ints
  import Rgb
  import Brightness
  import PixelBuffer
  import opened Waveform
  import Latch

  /** The largest LED count whose buffer size `3 * numLeds` fits the 16-bit
      `numBytes`. */
  const MaxLeds: nat := 21845

  /** `numBytes(numberOfLeds * 3)` as the constructor computes it: the product
      truncated to 16 bits. */
  function ByteCountAsWritten(numberOfLeds: U16): (count: U16)
    ensures numberOfLeds <= MaxLeds ==> count == PixelBuffer.BytesPerLed * numberOfLeds
  {
    (numberOfLeds * 3) % 0x1_0000
  }

  /** Above `MaxLeds` the truncated count is too small: LED `MaxLeds` is in
      range, its triplet starts at index 65535 (no 16-bit wrap needed), and that
      index is at or past the end of every truncated buffer. */
  lemma ByteCountAsWrittenOverflows(numberOfLeds: U16)
    requires numberOfLeds > MaxLeds
    ensures ByteCountAsWritten(numberOfLeds) < PixelBuffer.BytesPerLed * numberOfLeds
    ensures PixelBuffer.BytesPerLed * MaxLeds + PixelBuffer.RedOffset >= ByteCountAsWritten(numberOfLeds)
  {
  }

  /** The buffer size the driver needs: three bytes per LED, so that every LED's
      triplet lies inside the buffer. */
  function ByteCount(numberOfLeds: U16): (count: U16)
    requires numberOfLeds <= MaxLeds
    ensures count == PixelBuffer.BytesPerLed * numberOfLeds
    ensures forall n :: 0 <= n < numberOfLeds ==> PixelBuffer.BytesPerLed * n + 2 < count
  {
    numberOfLeds * 3
  }

  /** The frame after byte `ptr` is sent is the frame before it plus that byte's writes. */
  lemma SentOneMore(bytes: seq<U8>, ptr: nat, high: bv8, low: bv8)
    requires ptr < |bytes|
    ensures FramePulses(bytes[..ptr + 1], high, low)
         == FramePulses(bytes[..ptr], high, low) + Pulses(ByteBits(bytes[ptr]), high, low)
  {
    assert bytes[..ptr + 1] == bytes[..ptr] + [bytes[ptr]];
    FramePulsesSnoc(bytes[..ptr], bytes[ptr], high, low);
  }

  class RadioshackStrip {
    /** Number of LEDs; fixed at construction (`const uint16_t`). */
    const numLeds: U16
    /** Size of the pixel buffer; fixed at construction (`const uint16_t`). */
    const numBytes: U16
    /** Stored scale factor: 0 stores colours unscaled, k > 0 scales by k / 256. */
    var brightness: U8
    /** The pixel buffer, null when allocation failed. The pointer never changes
        after construction; its contents do. */
    const pixels: array?<U8>
    /** `micros()` at the end of the last frame. */
    var endTime: U32
    /** The output register of the strip's pin and the pin's bit in it. */
    const port: OutputPort
    const pinMask: bv8

    ghost predicate Valid()
    {
      && numBytes == PixelBuffer.BytesPerLed * numLeds
      && (pixels != null ==> pixels.Length == numBytes)
    }

    /** The initial `brightness` and `endTime` are whatever the memory held (the
        source leaves them uninitialised); `mallocSucceeded` says whether the
        buffer could be allocated. A fresh buffer is all zeros. */
    constructor (numberOfLeds: U16, port: OutputPort, pinMask: bv8, mallocSucceeded: bool,
                 brightness: U8, endTime: U32)
      requires numberOfLeds <= MaxLeds
      ensures Valid()
      ensures numLeds == numberOfLeds && NumPixels() == numberOfLeds
      ensures this.port == port && this.pinMask == pinMask
      ensures this.brightness == brightness && this.endTime == endTime
      ensures mallocSucceeded <==> pixels != null
      ensures pixels != null ==> fresh(pixels) && forall i :: 0 <= i < pixels.Length ==> pixels[i] == 0
    {
      numLeds := numberOfLeds;
      numBytes := ByteCount(numberOfLeds);
      this.port := port;
      this.pinMask := pinMask;
      if mallocSucceeded {
        pixels := new U8[ByteCount(numberOfLeds)](_ => 0);
      } else {
        pixels := null;
      }
      this.brightness := brightness;
      this.endTime := endTime;
    }

    /** `numPixels()`: the LED count given at construction, which also sizes the
        buffer. */
    function NumPixels(): (count: U16)
      requires Valid()
      ensures count == numLeds
      ensures PixelBuffer.BytesPerLed * count == numBytes
    {
      numLeds
    }

    /** `getPixelColor(n)`: reads the buffer only. The source dereferences the
        buffer only for an in-range index, so only then must it exist. */
    function GetPixelColor(n: U16): (c: U32)
      requires Valid()
      requires n < numLeds ==> pixels != null
      reads pixels
      ensures c < 0x100_0000
      ensures n >= numLeds ==> c == 0
      ensures n < numLeds ==> Rgb.Red(c) == pixels[PixelBuffer.BytesPerLed * n + PixelBuffer.RedOffset]
      ensures n < numLeds ==> Rgb.Green(c) == pixels[PixelBuffer.BytesPerLed * n + PixelBuffer.GreenOffset]
      ensures n < numLeds ==> Rgb.Blue(c) == pixels[PixelBuffer.BytesPerLed * n + PixelBuffer.BlueOffset]
    {
      if n < numLeds then PixelBuffer.Get(pixels[..], numLeds, n) else 0
    }

    /** `setPixelColor(n, r, g, b)`: scale when a factor is set, then write LED n's
        triplet in wire order; out of range, do nothing. */
    method SetPixelColor(n: U16, r: U8, g: U8, b: U8)
      requires Valid()
      requires n < numLeds ==> pixels != null
      modifies pixels
      ensures pixels != null ==>
        pixels[..] == PixelBuffer.Put(old(pixels[..]), numLeds, n, r, g, b, brightness)
      ensures n < numLeds ==>
        GetPixelColor(n) == Rgb.Color(Brightness.Scale(r, brightness), Brightness.Scale(g, brightness),
                                      Brightness.Scale(b, brightness))
      ensures pixels != null ==> forall m: U16 :: m != n ==> GetPixelColor(m) == old(GetPixelColor(m))
    {
      if n < numLeds {
        var r', g', b' := r, g, b;
        if brightness != 0 {
          Brightness.ProductHighByte(r, brightness);
          Brightness.ProductHighByte(g, brightness);
          Brightness.ProductHighByte(b, brightness);
          r' := (r * brightness) / 0x100;
          g' := (g * brightness) / 0x100;
          b' := (b * brightness) / 0x100;
        }
        var p := PixelBuffer.BytesPerLed * n;
        pixels[p + PixelBuffer.RedOffset] := r';
        pixels[p + PixelBuffer.GreenOffset] := g';
        pixels[p + PixelBuffer.BlueOffset] := b';
      }
    }

    /** `setPixelColor(n, c)`: the packed overload, keeping bits 16..23, 8..15 and
        0..7 of `c` as red, green and blue. */
    method SetPixelColorPacked(n: U16, c: U32)
      requires Valid()
      requires n < numLeds ==> pixels != null
      modifies pixels
      ensures pixels != null ==>
        pixels[..] == PixelBuffer.Put(old(pixels[..]), numLeds, n, Rgb.Red(c), Rgb.Green(c), Rgb.Blue(c), brightness)
      ensures n < numLeds && brightness == 0 ==> GetPixelColor(n) == c % 0x100_0000
      ensures pixels != null ==> forall m: U16 :: m != n ==> GetPixelColor(m) == old(GetPixelColor(m))
    {
      SetPixelColor(n, Rgb.Red(c), Rgb.Green(c), Rgb.Blue(c));
      if n < numLeds && brightness == 0 {
        Rgb.PackUnpack(c);
      }
    }

    /** `setBrightness(level)`: changes only the factor used by later writes. */
    method SetBrightness(level: U8)
      modifies this`brightness
      ensures brightness == Brightness.Stored(level)
    {
      brightness := (level + 1) % 0x100;
    }

    /** `sendBit`: drive the line high, hold, drive it low, hold. */
    method SendBit(bit: bool, high: bv8, low: bv8)
      modifies port
      ensures port.trace == old(port.trace) + BitPulses(bit, high, low)
      ensures port.level == low
    {
      if bit {
        port.Drive(high, LongHold);
        port.Drive(low, ShortHold);
      } else {
        port.Drive(high, ShortHold);
        port.Drive(low, LongHold);
      }
    }

    /** `sendByte`: a mask walks from 0x80 down to 1 and each masked bit is sent. */
    method SendByte(data: U8, high: bv8, low: bv8)
      modifies port
      ensures port.trace == old(port.trace) + Pulses(ByteBits(data), high, low)
      ensures port.level == low
    {
      var mask := 0x80;
      ghost var j := 0;
      assert Pow2(7) == 0x80 by {
        assert Pow2(1) == 2 && Pow2(2) == 4 && Pow2(3) == 8 && Pow2(4) == 16;
      }
      while mask > 0
        invariant 0 <= j <= 8
        invariant mask == if j < 8 then Pow2(7 - j) else 0
        invariant port.trace == old(port.trace) + Pulses(ByteBits(data)[..j], high, low)
        invariant j > 0 ==> port.level == low
        decreases mask
      {
        SendBit((data / mask) % 2 == 1, high, low);
        assert ByteBits(data)[..j + 1] == ByteBits(data)[..j] + [Bit(data, j)];
        PulsesAppend(ByteBits(data)[..j], [Bit(data, j)], high, low);
        mask := mask / 2;
        j := j + 1;
      }
      assert ByteBits(data)[..j] == ByteBits(data);
    }

    /** `sendPixels`: the two register values come from one snapshot of the port;
        then a down-counter walks a pointer through every byte of the buffer. */
    method SendPixels()
      requires Valid() && pixels != null
      modifies port
      ensures var high := SignalHigh(old(port.level), pinMask);
              var low := SignalLow(old(port.level), pinMask);
              port.trace == old(port.trace) + FramePulses(pixels[..], high, low)
      ensures port.level == if numBytes == 0 then old(port.level) else SignalLow(old(port.level), pinMask)
    {
      var high := SignalHigh(port.level, pinMask);
      var low := SignalLow(port.level, pinMask);
      ghost var bytes := pixels[..];
      var i := numBytes;
      var ptr := 0;
      while i != 0
        invariant 0 <= ptr <= numBytes && ptr + i == numBytes
        invariant port.trace == old(port.trace) + FramePulses(bytes[..ptr], high, low)
        invariant port.level == if ptr == 0 then old(port.level) else low
      {
        SentOneMore(bytes, ptr, high, low);
        SendByte(pixels[ptr], high, low);
        assert port.trace == old(port.trace) + FramePulses(bytes[..ptr + 1], high, low);
        ptr := ptr + 1;
        i := i - 1;
      }
      assert bytes[..ptr] == bytes;
    }

    /** The wait loop of `show()`: read the clock, and while it shows less than the
        latch time, read it again and stop if that shows no time at all. Returns
        how many readings it consumed. */
    method AwaitLatch(readings: seq<U32>) returns (polls: nat)
      requires Latch.WaitPolls(readings, endTime).Some?
      ensures polls == Latch.WaitPolls(readings, endTime).value
      ensures polls <= |readings|
    {
      polls := 0;
      while true
        invariant polls % 2 == 0 && polls <= |readings|
        invariant Latch.WaitFrom(readings, endTime, polls) == Latch.WaitPolls(readings, endTime)
        decreases |readings| - polls
      {
        var first := Latch.Elapsed(readings[polls], endTime);
        polls := polls + 1;
        if !(first < Latch.LatchMicros) {
          break;
        }
        var second := Latch.Elapsed(readings[polls], endTime);
        polls := polls + 1;
        if !(second > 0) {
          break;
        }
      }
    }

    /** `show()`: nothing at all without a buffer. Otherwise wait out the latch,
        transmit the buffer as one frame, and record the next clock reading as the
        end of the frame. Returns how many clock readings were consumed. */
    method Show(readings: seq<U32>) returns (used: nat)
      requires Valid()
      requires pixels != null ==>
        Latch.WaitPolls(readings, endTime).Some? && Latch.WaitPolls(readings, endTime).value < |readings|
      modifies this`endTime, port
      ensures pixels == null ==>
        used == 0 && endTime == old(endTime) && port.trace == old(port.trace) && port.level == old(port.level)
      ensures pixels != null ==>
        var polls := Latch.WaitPolls(readings, old(endTime)).value;
        && used == polls + 1
        && endTime == readings[polls]
        && port.trace == old(port.trace) + FramePulses(pixels[..], SignalHigh(old(port.level), pinMask),
                                                       SignalLow(old(port.level), pinMask))
        && port.level == if numBytes == 0 then old(port.level) else SignalLow(old(port.level), pinMask)
    {
      if pixels == null {
        return 0;
      }
      var polls := AwaitLatch(readings);
      SendPixels();
      endTime := readings[polls];
      used := polls + 1;
    }
  }
}
