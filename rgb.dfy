/** The packed colour of the public interface: logical RGB in the low 24 bits of
    a `uint32_t`, whatever the strip's wire order is. */
module Rgb {
  import opened Ints

  /** The channel `(uint8_t)(c >> 16)` keeps. */
  function Red(c: U32): U8 { (c / 0x1_0000) % 0x100 }

  /** The channel `(uint8_t)(c >> 8)` keeps. */
  function Green(c: U32): U8 { (c / 0x100) % 0x100 }

  /** The channel `(uint8_t)c` keeps. */
  function Blue(c: U32): U8 { c % 0x100 }

  /** `Color(r, g, b)`: `r << 16 | g << 8 | b`. The three fields do not overlap,
      so the bitwise or is a sum. Unpacking gives the three channels back. */
  function Color(r: U8, g: U8, b: U8): (c: U32)
    ensures c < 0x100_0000
    ensures Red(c) == r && Green(c) == g && Blue(c) == b
  {
    var c := r * 0x1_0000 + g * 0x100 + b;
    DivUnique(c, 0x1_0000, r, g * 0x100 + b);
    DivUnique(c, 0x100, r * 0x100 + g, b);
    DivUnique(r * 0x100 + g, 0x100, r, g);
    c
  }

  /** Packing the three channels of any 32-bit value gives back its low 24 bits:
      the top byte is the only thing the `uint8_t` casts lose. */
  lemma PackUnpack(c: U32)
    ensures Color(Red(c), Green(c), Blue(c)) == c % 0x100_0000
  {
    var low := c % 0x100_0000;
    var hi, mid := c / 0x1_0000, c / 0x100;
    assert c == 0x1_0000 * hi + c % 0x1_0000;
    assert c == 0x100 * mid + c % 0x100;
    assert hi == mid / 0x100 by {
      DivUnique(c, 0x1_0000, mid / 0x100, (mid % 0x100) * 0x100 + c % 0x100);
    }
    assert c == 0x100_0000 * (hi / 0x100) + (hi % 0x100) * 0x1_0000 + c % 0x1_0000;
    DivUnique(c, 0x100_0000, hi / 0x100, (hi % 0x100) * 0x1_0000 + c % 0x1_0000);
    assert c % 0x1_0000 == (mid % 0x100) * 0x100 + c % 0x100;
  }
}
