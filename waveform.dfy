/** The single-wire waveform of a frame. Every bit is one write of the "line high"
    register value, a hold, one write of the "line low" value and another hold;
    the ratio of the two holds encodes the bit. Holds are counted in abstract
    delay units (one `nop` each). */
module Waveform {
  import opened Ints

  /** One write to the output register followed by a busy hold of `hold` units. */
  datatype Pulse = Pulse(level: bv8, hold: nat)

  const LongHold: nat := 22
  const ShortHold: nat := 9

  /** High-phase hold: long for a 1, short for a 0. */
  function HighHold(bit: bool): nat { if bit then LongHold else ShortHold }

  /** Low-phase hold: short for a 1, long for a 0. */
  function LowHold(bit: bool): nat { if bit then ShortHold else LongHold }

  /** `*port | pinMask`: the pin bits set, every other bit as in the snapshot. */
  function SignalHigh(snapshot: bv8, pinMask: bv8): (v: bv8)
    ensures v & pinMask == pinMask
    ensures v & !pinMask == snapshot & !pinMask
  {
    snapshot | pinMask
  }

  /** `*port & ~pinMask`: the pin bits cleared, every other bit as in the snapshot. */
  function SignalLow(snapshot: bv8, pinMask: bv8): (v: bv8)
    ensures v & pinMask == 0
    ensures v & !pinMask == snapshot & !pinMask
  {
    snapshot & !pinMask
  }

  /** The two writes of one bit: high then low, a constant period of 31 units,
      the line staying high longer than low exactly when the bit is 1. */
  function BitPulses(bit: bool, high: bv8, low: bv8): (w: seq<Pulse>)
    ensures |w| == 2 && w[0].level == high && w[1].level == low
    ensures w[0].hold + w[1].hold == LongHold + ShortHold
    ensures bit <==> w[0].hold > w[1].hold
  {
    [Pulse(high, HighHold(bit)), Pulse(low, LowHold(bit))]
  }

  /** Bit j of a byte in transmission order: j = 0 is the most significant bit,
      `(d >> (7 - j)) & 1`. */
  function Bit(d: U8, j: nat): bool
    requires j < 8
  {
    (d / Pow2(7 - j)) % 2 == 1
  }

  /** The eight bits of a byte, most significant first. */
  function ByteBits(d: U8): (bits: seq<bool>)
    ensures |bits| == 8
  {
    seq(8, j requires 0 <= j < 8 => Bit(d, j))
  }

  /** The bits of a frame: byte 0 first, each byte most significant bit first. */
  function FrameBits(bytes: seq<U8>): (bits: seq<bool>)
    ensures |bits| == 8 * |bytes|
  {
    if bytes == [] then []
    else FrameBits(bytes[..|bytes| - 1]) + ByteBits(bytes[|bytes| - 1])
  }

  /** Bit k of a frame is bit k % 8 of byte k / 8. */
  lemma {:induction false} FrameBitsAt(bytes: seq<U8>, k: nat)
    requires k < 8 * |bytes|
    ensures FrameBits(bytes)[k] == Bit(bytes[k / 8], k % 8)
  {
    var init := bytes[..|bytes| - 1];
    if k < 8 * |init| {
      FrameBitsAt(init, k);
      assert bytes[k / 8] == init[k / 8];
    }
  }

  /** The writes that transmit a bit sequence. */
  function Pulses(bits: seq<bool>, high: bv8, low: bv8): (w: seq<Pulse>)
    ensures |w| == 2 * |bits|
  {
    if bits == [] then []
    else Pulses(bits[..|bits| - 1], high, low) + BitPulses(bits[|bits| - 1], high, low)
  }

  /** Pulse pair 2k, 2k + 1 carries bit k: the high value held for the bit's high
      time, then the low value held for its low time. */
  lemma {:induction false} PulsesAt(bits: seq<bool>, high: bv8, low: bv8, k: nat)
    requires k < |bits|
    ensures Pulses(bits, high, low)[2 * k] == Pulse(high, HighHold(bits[k]))
    ensures Pulses(bits, high, low)[2 * k + 1] == Pulse(low, LowHold(bits[k]))
  {
    var init := bits[..|bits| - 1];
    if k < |init| {
      PulsesAt(init, high, low, k);
    }
  }

  /** The writes that transmit a whole buffer. */
  function FramePulses(bytes: seq<U8>, high: bv8, low: bv8): seq<Pulse>
  {
    Pulses(FrameBits(bytes), high, low)
  }

  /** A frame of n bytes is 8n bits, 16n writes; write 2k is the high phase and
      write 2k + 1 the low phase of bit k % 8 of byte k / 8. */
  lemma FrameShape(bytes: seq<U8>, high: bv8, low: bv8, k: nat)
    requires k < 8 * |bytes|
    ensures |FramePulses(bytes, high, low)| == 16 * |bytes|
    ensures FramePulses(bytes, high, low)[2 * k] == Pulse(high, HighHold(Bit(bytes[k / 8], k % 8)))
    ensures FramePulses(bytes, high, low)[2 * k + 1] == Pulse(low, LowHold(Bit(bytes[k / 8], k % 8)))
  {
    FrameBitsAt(bytes, k);
    PulsesAt(FrameBits(bytes), high, low, k);
  }

  lemma {:induction false} PulsesAppend(a: seq<bool>, b: seq<bool>, high: bv8, low: bv8)
    ensures Pulses(a + b, high, low) == Pulses(a, high, low) + Pulses(b, high, low)
    decreases |b|
  {
    if b != [] {
      var b' := b[..|b| - 1];
      assert (a + b)[..|a + b| - 1] == a + b';
      PulsesAppend(a, b', high, low);
    } else {
      assert a + b == a;
    }
  }

  /** Sending one more byte appends that byte's writes to the frame so far. */
  lemma FramePulsesSnoc(bytes: seq<U8>, d: U8, high: bv8, low: bv8)
    ensures FramePulses(bytes + [d], high, low)
         == FramePulses(bytes, high, low) + Pulses(ByteBits(d), high, low)
  {
    assert (bytes + [d])[..|bytes|] == bytes;
    PulsesAppend(FrameBits(bytes), ByteBits(d), high, low);
  }

  /** What a receiving LED reads from consecutive high/low pairs: a 1 when the
      line stayed high longer than it stayed low. */
  function DecodePulses(w: seq<Pulse>): (bits: seq<bool>)
    requires |w| % 2 == 0
    ensures |bits| == |w| / 2
  {
    if w == [] then []
    else DecodePulses(w[..|w| - 2]) + [w[|w| - 2].hold > w[|w| - 1].hold]
  }

  /** The number a bit sequence spells, most significant bit first. */
  function BitsValue(bits: seq<bool>): nat
  {
    if bits == [] then 0
    else 2 * BitsValue(bits[..|bits| - 1]) + (if bits[|bits| - 1] then 1 else 0)
  }

  /** Regroups a bit stream into bytes, eight bits each. */
  function DecodeBytes(bits: seq<bool>): (bytes: seq<int>)
    requires |bits| % 8 == 0
    ensures |bytes| == |bits| / 8
  {
    if bits == [] then []
    else DecodeBytes(bits[..|bits| - 8]) + [BitsValue(bits[|bits| - 8..])]
  }

  /** The receiver recovers every bit from the pulse widths, whatever the two
      register values are. */
  lemma {:induction false} PulsesDecode(bits: seq<bool>, high: bv8, low: bv8)
    ensures DecodePulses(Pulses(bits, high, low)) == bits
  {
    if bits != [] {
      var init := bits[..|bits| - 1];
      var w := Pulses(bits, high, low);
      assert w[..|w| - 2] == Pulses(init, high, low);
      PulsesDecode(init, high, low);
      assert bits == init + [bits[|bits| - 1]];
    }
  }

  /** The first k bits of a byte, most significant first, spell `d >> (8 - k)`. */
  lemma {:induction false} ByteBitsPrefix(d: U8, k: nat)
    requires k <= 8
    ensures BitsValue(ByteBits(d)[..k]) == d / Pow2(8 - k)
  {
    if k == 0 {
      assert Pow2(8) == 256;
    } else {
      var bits := ByteBits(d);
      assert bits[..k][..k - 1] == bits[..k - 1];
      ByteBitsPrefix(d, k - 1);
      var q := d / Pow2(8 - k);
      DivPow2Succ(d, 8 - k);
      assert q == 2 * (q / 2) + q % 2;
    }
  }

  /** The eight transmitted bits of a byte spell the byte. */
  lemma ByteBitsValue(d: U8)
    ensures BitsValue(ByteBits(d)) == d
  {
    ByteBitsPrefix(d, 8);
    assert ByteBits(d)[..8] == ByteBits(d);
  }

  /** Regrouping the bits of a frame gives back the buffer. */
  lemma {:induction false} FrameBitsDecode(bytes: seq<U8>)
    ensures DecodeBytes(FrameBits(bytes)) == bytes
  {
    if bytes != [] {
      var init := bytes[..|bytes| - 1];
      var last := bytes[|bytes| - 1];
      var bits := FrameBits(bytes);
      assert bits == FrameBits(init) + ByteBits(last);
      assert bits[..|bits| - 8] == FrameBits(init);
      assert bits[|bits| - 8..] == ByteBits(last);
      FrameBitsDecode(init);
      ByteBitsValue(last);
      assert bytes == init + [last];
    }
  }

  /** Round trip of the wire protocol: a receiver that reads bits from pulse
      widths and groups them by eight recovers the whole buffer. */
  lemma FrameDecodes(bytes: seq<U8>, high: bv8, low: bv8)
    ensures DecodeBytes(DecodePulses(FramePulses(bytes, high, low))) == bytes
  {
    PulsesDecode(FrameBits(bytes), high, low);
    FrameBitsDecode(bytes);
  }

  /** The output register, seen through the writes made to it: its current value
      and the history of writes, each with the hold that followed it. */
  class OutputPort {
    var level: bv8
    var trace: seq<Pulse>

    constructor (initial: bv8)
      ensures level == initial && trace == []
    {
      level := initial;
      trace := [];
    }

    /** `*port = v` followed by a run of `hold` no-ops. */
    method Drive(v: bv8, hold: nat)
      modifies this
      ensures level == v
      ensures trace == old(trace) + [Pulse(v, hold)]
    {
      level := v;
      trace := trace + [Pulse(v, hold)];
    }
  }
}
