/** The pixel buffer as a value: `3 * numLeds` bytes, one triplet per LED in the
    strip's wire order red, blue, green. `Put` and `Get` are what `setPixelColor`
    and `getPixelColor` do to and read from it. */
module PixelBuffer {
  import opened Ints
  import Rgb
  import Brightness

  const BytesPerLed: nat := 3
  /** Position of each channel inside an LED's triplet (wire order R, B, G). */
  const RedOffset: nat := 0
  const BlueOffset: nat := 1
  const GreenOffset: nat := 2

  /** The buffer after `setPixelColor(n, r, g, b)` under scale factor `k`: in
      range, LED n's triplet holds the scaled channels in wire order and no other
      byte changes; out of range, nothing changes. */
  function Put(buf: seq<U8>, numLeds: nat, n: U16, r: U8, g: U8, b: U8, k: U8): (out: seq<U8>)
    requires |buf| == BytesPerLed * numLeds
    ensures |out| == |buf|
    ensures n >= numLeds ==> out == buf
    ensures forall i :: 0 <= i < |buf| && i / BytesPerLed != n ==> out[i] == buf[i]
    ensures n < numLeds ==>
      && out[BytesPerLed * n + RedOffset] == Brightness.Scale(r, k)
      && out[BytesPerLed * n + GreenOffset] == Brightness.Scale(g, k)
      && out[BytesPerLed * n + BlueOffset] == Brightness.Scale(b, k)
  {
    if n < numLeds then
      var p := BytesPerLed * n;
      buf[p + RedOffset := Brightness.Scale(r, k)]
         [p + GreenOffset := Brightness.Scale(g, k)]
         [p + BlueOffset := Brightness.Scale(b, k)]
    else
      buf
  }

  /** `getPixelColor(n)`: LED n's triplet repacked in logical RGB order, or 0 when
      n is out of range. Unpacking the result gives the stored wire-order bytes. */
  function Get(buf: seq<U8>, numLeds: nat, n: U16): (c: U32)
    requires |buf| == BytesPerLed * numLeds
    ensures c < 0x100_0000
    ensures n >= numLeds ==> c == 0
    ensures n < numLeds ==>
      && Rgb.Red(c) == buf[BytesPerLed * n + RedOffset]
      && Rgb.Green(c) == buf[BytesPerLed * n + GreenOffset]
      && Rgb.Blue(c) == buf[BytesPerLed * n + BlueOffset]
  {
    if n < numLeds then
      var p := BytesPerLed * n;
      Rgb.Color(buf[p + RedOffset], buf[p + GreenOffset], buf[p + BlueOffset])
    else
      0
  }

  /** Reading an LED back gives the colour written to it, with each channel
      scaled by the factor in force at the time of the write. */
  lemma GetAfterPut(buf: seq<U8>, numLeds: nat, n: U16, r: U8, g: U8, b: U8, k: U8)
    requires |buf| == BytesPerLed * numLeds
    requires n < numLeds
    ensures Get(Put(buf, numLeds, n, r, g, b, k), numLeds, n)
         == Rgb.Color(Brightness.Scale(r, k), Brightness.Scale(g, k), Brightness.Scale(b, k))
  {
  }

  /** With scaling off (factor 0), reading an LED back gives exactly `Color(r, g, b)`. */
  lemma GetAfterPutUnscaled(buf: seq<U8>, numLeds: nat, n: U16, r: U8, g: U8, b: U8)
    requires |buf| == BytesPerLed * numLeds
    requires n < numLeds
    ensures Get(Put(buf, numLeds, n, r, g, b, 0), numLeds, n) == Rgb.Color(r, g, b)
  {
  }

  /** The packed overload writes the three channels of `c`; with scaling off,
      reading back gives `c` without its top byte. */
  lemma GetAfterPutPacked(buf: seq<U8>, numLeds: nat, n: U16, c: U32)
    requires |buf| == BytesPerLed * numLeds
    requires n < numLeds
    ensures Get(Put(buf, numLeds, n, Rgb.Red(c), Rgb.Green(c), Rgb.Blue(c), 0), numLeds, n)
         == c % 0x100_0000
  {
    Rgb.PackUnpack(c);
  }

  /** Writing one LED leaves every other LED's colour as it was. */
  lemma GetAfterPutElsewhere(buf: seq<U8>, numLeds: nat, n: U16, m: U16, r: U8, g: U8, b: U8, k: U8)
    requires |buf| == BytesPerLed * numLeds
    requires m != n
    ensures Get(Put(buf, numLeds, n, r, g, b, k), numLeds, m) == Get(buf, numLeds, m)
  {
  }

  /** Two writes to the same LED leave only the second: writes between frames
      collapse into the final buffer state. */
  lemma {:induction false} PutOverwrites(buf: seq<U8>, numLeds: nat, n: U16,
                                         r1: U8, g1: U8, b1: U8, k1: U8,
                                         r2: U8, g2: U8, b2: U8, k2: U8)
    requires |buf| == BytesPerLed * numLeds
    ensures Put(Put(buf, numLeds, n, r1, g1, b1, k1), numLeds, n, r2, g2, b2, k2)
         == Put(buf, numLeds, n, r2, g2, b2, k2)
  {
  }

  /** Writes to two different LEDs can happen in either order. */
  lemma {:induction false} PutCommutes(buf: seq<U8>, numLeds: nat, n: U16, m: U16,
                                       r1: U8, g1: U8, b1: U8, k1: U8,
                                       r2: U8, g2: U8, b2: U8, k2: U8)
    requires |buf| == BytesPerLed * numLeds
    requires n != m
    ensures Put(Put(buf, numLeds, n, r1, g1, b1, k1), numLeds, m, r2, g2, b2, k2)
         == Put(Put(buf, numLeds, m, r2, g2, b2, k2), numLeds, n, r1, g1, b1, k1)
  {
  }
}
