/** Fixed-width unsigned integers of the AVR target, as subsets of `int`,
    and the powers of two that shifts by a variable amount stand for. */
module Ints {

  /** `uint8_t` */
  type U8 = x: int | 0 <= x < 0x100
  /** `uint16_t` */
  type U16 = x: int | 0 <= x < 0x1_0000
  /** `uint32_t` (`unsigned long` on AVR) */
  type U32 = x: int | 0 <= x < 0x1_0000_0000

  /** 2^k: `x >> k` is `x / Pow2(k)` on unsigned values. */
  function Pow2(k: nat): (p: nat)
    ensures p >= 1
  {
    if k == 0 then 1 else 2 * Pow2(k - 1)
  }

  /** Division by d has one quotient: the q with x == d * q + r and 0 <= r < d. */
  lemma DivUnique(x: int, d: int, q: int, r: int)
    requires d > 0 && x == d * q + r && 0 <= r < d
    ensures x / d == q
  {
    var q', r' := x / d, x % d;
    assert d * q' + r' == d * q + r;
    assert d * (q - q') == r' - r by {
      assert d * (q - q') == d * q - d * q';
    }
    if q' < q {
      MulAtLeast(d, q - q');
    } else if q' > q {
      MulAtLeast(d, q' - q);
    }
  }

  lemma MulAtLeast(d: int, m: int)
    requires d > 0 && m >= 1
    ensures d * m >= d
  {
    assert d * m == d * (m - 1) + d;
  }

  /** Shifting right by k + 1 is shifting right by k and then by one. */
  lemma {:induction false} DivPow2Succ(x: nat, k: nat)
    ensures x / Pow2(k + 1) == (x / Pow2(k)) / 2
  {
    var p := Pow2(k);
    var q := x / p;
    var r := x % p;
    assert x == p * q + r;
    var q2, r2 := q / 2, q % 2;
    assert q == 2 * q2 + r2;
    assert x == (2 * p) * q2 + (p * r2 + r) by {
      assert p * q == p * (2 * q2 + r2) == (2 * p) * q2 + p * r2;
    }
    assert 0 <= p * r2 + r < 2 * p by {
      assert r2 == 0 || r2 == 1;
    }
    DivUnique(x, 2 * p, q2, p * r2 + r);
  }
}
