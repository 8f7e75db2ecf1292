/** Brightness pre-scaling: the stored scale factor and what it does to a channel. */
module Brightness {
  import opened Ints

  /** What `setBrightness(level)` stores: `level + 1` in a `uint8_t`, so that the
      request 255 wraps to 0, the factor that means "store colours unscaled". */
  function Stored(level: U8): (k: U8)
    ensures k == 0 <==> level == 255
    ensures k != 0 ==> k - 1 == level
  {
    (level + 1) % 0x100
  }

  /** The channel value that `setPixelColor` stores for `c` under factor `k`:
      `c` itself when `k` is 0, otherwise the high byte of the 8x8-bit product
      `(c * k) >> 8`. Scaling never brightens, and dims every lit channel. */
  function Scale(c: U8, k: U8): (s: U8)
    ensures s <= c
    ensures k == 0 ==> s == c
    ensures k != 0 && c != 0 ==> s < c
  {
    if k == 0 then c
    else
      ProductHighByte(c, k);
      (c * k) / 0x100
  }

  /** The high byte of c * k, for a factor k of 1..255, lies below c unless c is 0. */
  lemma ProductHighByte(c: U8, k: U8)
    requires k != 0
    ensures (c * k) / 0x100 <= c
    ensures c != 0 ==> (c * k) / 0x100 < c
  {
    if c != 0 {
      MulMonotone(c, k, 0xFF);
      DivBelow(c * k, 0x100, c);
    }
  }

  lemma MulMonotone(c: nat, k1: nat, k2: nat)
    requires k1 <= k2
    ensures c * k1 <= c * k2
  {
    assert c * k2 == c * k1 + c * (k2 - k1);
  }

  lemma DivBelow(x: nat, d: nat, c: nat)
    requires d > 0 && x < d * c
    ensures x / d < c
  {
    assert d * (x / d) <= x;
    if x / d >= c {
      MulMonotone(d, c, x / d);
    }
  }

  lemma DivMonotone(x: nat, y: nat, d: nat)
    requires d > 0 && x <= y
    ensures x / d <= y / d
  {
    assert d * (y / d + 1) == d * (y / d) + d;
    assert y == d * (y / d) + y % d;
    assert x >= d * (x / d);
    if x / d > y / d {
      MulMonotone(d, y / d + 1, x / d);
    }
  }

  /** A requested level of 255 stores every channel exactly as given. */
  lemma FullLevelPassesThrough(c: U8)
    ensures Scale(c, Stored(255)) == c
  {
  }

  /** A requested level of 0 stores every channel as 0: the strip goes dark. */
  lemma ZeroLevelIsOff(c: U8)
    ensures Scale(c, Stored(0)) == 0
  {
  }

  /** A higher requested level never stores a dimmer channel: over all 256 levels,
      wrap-around included, brightness is monotone. */
  lemma LevelMonotone(c: U8, level1: U8, level2: U8)
    requires level1 <= level2
    ensures Scale(c, Stored(level1)) <= Scale(c, Stored(level2))
  {
    if level2 != 255 {
      MulMonotone(c, level1 + 1, level2 + 1);
      DivMonotone(c * (level1 + 1), c * (level2 + 1), 0x100);
    }
  }

  /** Scaling keeps the order of channel values: a brighter channel stays at least
      as bright after scaling by the same factor. */
  lemma ChannelMonotone(c1: U8, c2: U8, k: U8)
    requires c1 <= c2
    ensures Scale(c1, k) <= Scale(c2, k)
  {
    if k != 0 {
      assert c2 * k == c1 * k + (c2 - c1) * k;
      DivMonotone(c1 * k, c2 * k, 0x100);
    }
  }
}
