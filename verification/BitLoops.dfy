/** The software bit-reverse and count-leading-zeros loops for the Cortex-M0 family. */
module BitLoops {
  import opened Words

  function Pow2(n: nat): (p: nat)
    ensures p >= 1
  {
    if n == 0 then 1 else 2 * Pow2(n - 1)
  }

  /** Bit i of a word. */
  function Bit(x: nat, i: nat): (b: nat)
    ensures b <= 1
  {
    x / Pow2(i) % 2
  }

  /** The word whose bit i, counted from `width - 1` down, is bit i of x. */
  function Reversed(x: nat, width: nat): nat
    decreases width
  {
    if width == 0 then 0 else x % 2 * Pow2(width - 1) + Reversed(x / 2, width - 1)
  }

  /** How many of the `width` lowest bits of x are zero above its highest one. */
  function LeadingZeros(x: nat, width: nat): nat
    decreases width
  {
    if width == 0 || Bit(x, width - 1) == 1 then 0 else 1 + LeadingZeros(x, width - 1)
  }

  function TrailingZeros(x: nat, width: nat): nat
    decreases width
  {
    if width == 0 || x % 2 == 1 then 0 else 1 + TrailingZeros(x / 2, width - 1)
  }

  lemma {:induction false} DivPow2(x: nat, i: nat)
    ensures x / 2 / Pow2(i) == x / Pow2(i + 1)
  {
    var p := Pow2(i);
    var q := x / 2 / p;
    assert x == 2 * (x / 2) + x % 2;
    assert x / 2 == p * q + x / 2 % p;
    QuotientIs(x, 2 * p, q, 2 * (x / 2 % p) + x % 2);
  }

  lemma MultipleIsBig(d: int, k: int)
    requires d >= 0
    ensures k >= 1 ==> d * k >= d
    ensures k <= -1 ==> d * k <= -d
  {
  }

  lemma QuotientIs(x: nat, d: nat, q: nat, r: nat)
    requires r < d && x == d * q + r
    ensures x / d == q && x % d == r
  {
    var k: int := q - x / d;
    assert d * k == d * q - d * (x / d);
    MultipleIsBig(d, k);
  }

  lemma BitOfHalf(x: nat, i: nat)
    ensures Bit(x / 2, i) == Bit(x, i + 1)
  {
    DivPow2(x, i);
  }

  lemma {:induction false} ReversedBound(x: nat, width: nat)
    ensures Reversed(x, width) < Pow2(width)
    decreases width
  {
    if width > 0 {
      ReversedBound(x / 2, width - 1);
    }
  }

  lemma TopBit(b: nat, p: nat, low: nat)
    requires b <= 1 && low < p
    ensures (b * p + low) / p % 2 == b
  {
    QuotientIs(b * p + low, p, b, low);
  }

  lemma LowestBit(x: nat)
    ensures Bit(x, 0) == x % 2
  {
  }

  /** Bit i of the input is bit width-1-i of the reversed word. */
  lemma {:induction false} ReversedBit(x: nat, width: nat, i: nat)
    requires i < width
    ensures Bit(Reversed(x, width), width - 1 - i) == Bit(x, i)
    decreases width
  {
    hide Pow2;
    var low := Reversed(x / 2, width - 1);
    if i == 0 {
      ReversedBound(x / 2, width - 1);
      TopBit(x % 2, Pow2(width - 1), low);
      LowestBit(x);
    } else {
      ReversedBit(x / 2, width - 1, i - 1);
      BitOfHalf(x, i - 1);
      HighPart(x % 2, low, width - 1, width - 1 - i);
    }
  }

  lemma {:induction false} Pow2Split(a: nat, b: nat)
    ensures Pow2(a + b) == Pow2(a) * Pow2(b)
    decreases a
  {
    if a > 0 {
      Pow2Split(a - 1, b);
    }
  }

  lemma Regroup(h: nat, m: nat, p: nat)
    ensures h * (m * (2 * p)) == p * (2 * (h * m))
  {
    assert h * (m * (2 * p)) == (h * m) * (2 * p);
  }

  lemma Distribute(p: nat, a: nat, b: nat)
    ensures p * (a + b) == p * a + p * b
  {
  }

  lemma AddedAbove(h: nat, m: nat, p: nat, low: nat)
    requires p >= 1
    ensures (h * (m * (2 * p)) + low) / p % 2 == low / p % 2
  {
    Regroup(h, m, p);
    EvenAbove(h * m, p, low);
  }

  lemma EvenAbove(above: nat, p: nat, low: nat)
    requires p >= 1
    ensures (p * (2 * above) + low) / p % 2 == low / p % 2
  {
    var q := low / p;
    Distribute(p, 2 * above, q);
    assert low == p * q + low % p;
    QuotientIs(p * (2 * above) + low, p, 2 * above + q, low % p);
  }

  /** A part added above bit k does not show below it. */
  lemma HighPart(high: nat, low: nat, k: nat, i: nat)
    requires i < k
    ensures Bit(high * Pow2(k) + low, i) == Bit(low, i)
  {
    hide Pow2;
    Pow2Split(k - i - 1, i + 1);
    Pow2Next(i);
    AddedAbove(high, Pow2(k - i - 1), Pow2(i), low);
  }

  lemma Pow2Next(i: nat)
    ensures Pow2(i + 1) == 2 * Pow2(i)
  {
  }

  lemma Pow32()
    ensures Pow2(32) == TICKS && Pow2(31) == 0x8000_0000
  {
    assert Pow2(8) == 256;
    Pow2Split(8, 8);
    Pow2Split(16, 16);
    Pow2Next(31);
  }

  /** Bits determine a number. */
  lemma {:induction false} SameBits(x: nat, y: nat, width: nat)
    requires x < Pow2(width) && y < Pow2(width)
    requires forall i | 0 <= i < width :: Bit(x, i) == Bit(y, i)
    ensures x == y
    decreases width
  {
    if width > 0 {
      assert Bit(x, 0) == x % 2 && Bit(y, 0) == y % 2;
      forall i | 0 <= i < width - 1 ensures Bit(x / 2, i) == Bit(y / 2, i) {
        BitOfHalf(x, i);
        BitOfHalf(y, i);
        assert Bit(x, i + 1) == Bit(y, i + 1);
      }
      SameBits(x / 2, y / 2, width - 1);
    }
  }

  /** Reversing twice gives the word back. */
  lemma ReversedTwice(x: nat, width: nat)
    requires x < Pow2(width)
    ensures Reversed(Reversed(x, width), width) == x
  {
    var r := Reversed(x, width);
    ReversedBound(x, width);
    ReversedBound(r, width);
    forall i | 0 <= i < width ensures Bit(Reversed(r, width), i) == Bit(x, i) {
      ReversedBit(r, width, width - 1 - i);
      ReversedBit(x, width, i);
    }
    SameBits(Reversed(r, width), x, width);
  }

  /** Leading zeros of the reversed word are the trailing zeros of the word. */
  lemma {:induction false} LeadingOfReversed(x: nat, width: nat)
    ensures LeadingZeros(Reversed(x, width), width) == TrailingZeros(x, width)
    decreases width
  {
    hide Bit, Pow2;
    if width > 0 {
      ReversedBit(x, width, 0);
      LowestBit(x);
      LeadingOfReversed(x / 2, width - 1);
      if x % 2 == 0 {
        assert Reversed(x, width) == Reversed(x / 2, width - 1);
      }
    }
  }

  /** What the two zero counts count. */
  lemma {:induction false} TrailingMeans(x: nat, width: nat)
    ensures TrailingZeros(x, width) <= width
    ensures forall i | 0 <= i < TrailingZeros(x, width) :: Bit(x, i) == 0
    ensures TrailingZeros(x, width) < width ==> Bit(x, TrailingZeros(x, width)) == 1
    decreases width
  {
    assert Bit(x, 0) == x % 2;
    if width > 0 && x % 2 == 0 {
      TrailingMeans(x / 2, width - 1);
      forall i | 0 <= i < TrailingZeros(x, width) ensures Bit(x, i) == 0 {
        if i > 0 {
          BitOfHalf(x, i - 1);
          assert Bit(x / 2, i - 1) == 0;
        }
      }
      BitOfHalf(x, TrailingZeros(x / 2, width - 1));
    }
  }

  lemma {:induction false} ZeroHasNoBits(width: nat)
    ensures Reversed(0, width) == 0 && LeadingZeros(0, width) == width
    decreases width
  {
    if width > 0 {
      ZeroHasNoBits(width - 1);
    }
  }

  lemma ModPart(r: nat, p: nat, m: nat)
    requires p >= 1 && m >= 1
    ensures r * p % (p * m) == p * (r % m) <= p * (m - 1)
  {
    assert r == m * (r / m) + r % m;
    Distribute(p, m * (r / m), r % m);
    assert p * (m * (r / m)) == (p * m) * (r / m);
    MulMonotone(p, r % m, m - 1);
    Distribute(p, m - 1, 1);
    QuotientIs(r * p, p * m, r / m, p * (r % m));
  }

  lemma MulMonotone(p: nat, a: nat, b: nat)
    requires a <= b
    ensures p * a <= p * b
  {
  }

  lemma ShiftedStaysEven(r: nat)
    requires r < TICKS
    ensures 2 * r % TICKS <= TICKS - 2
  {
    assert 2 * r % TICKS == if 2 * r < TICKS then 2 * r else 2 * r - TICKS;
  }

  /** One turn of the reverse loop: the low bit of v moves to where it belongs. */
  lemma ShiftStep(r: nat, sc: nat, b: nat)
    requires r < TICKS && 1 <= sc <= 31 && b <= 1
    ensures (2 * r % TICKS + b) * Pow2(sc - 1) % TICKS == r * Pow2(sc) % TICKS + b * Pow2(sc - 1)
  {
    hide Pow2;
    Pow2Next(sc - 1);
    Pow32();
    Pow2Split(sc, 32 - sc);
    var p, m := Pow2(sc - 1), Pow2(32 - sc);
    ModPart(r, 2 * p, m);
    var low, e := 2 * p * (r % m) + b * p, 2 * r / TICKS;
    assert 2 * p * (m - 1) + 2 * p == TICKS by { Distribute(2 * p, m - 1, 1); }
    assert b * p <= p;
    var q := r * (2 * p) / TICKS;
    assert r * (2 * p) == TICKS * q + 2 * p * (r % m);
    assert 2 * r % TICKS == 2 * r - TICKS * e;
    ShiftProduct(r, p, b, e, q, low);
  }

  lemma ShiftProduct(r: nat, p: nat, b: nat, e: nat, q: nat, low: nat)
    requires r * (2 * p) + b * p == TICKS * q + low && low < TICKS && TICKS * e <= 2 * r
    ensures (2 * r - TICKS * e + b) * p % TICKS == low
  {
    var x := (2 * r - TICKS * e + b) * p;
    assert x == r * (2 * p) + b * p - TICKS * (e * p);
    assert x == TICKS * (q - e * p) + low;
    ModShift(low, q - e * p);
  }

  /** What the loop has done and still has to do. */
  predicate Reversing(value: nat, v: nat, r: nat, sc: nat) {
    && sc <= 31 && r < TICKS && v < Pow2(sc)
    && r * Pow2(sc) % TICKS + Reversed(v, sc) == Reversed(value, 32)
  }

  lemma ReversingStarts(value: Word)
    ensures Reversing(value, value / 2, value, 31)
  {
    Pow32();
    ModPart(value, Pow2(31), 2);
  }

  lemma ReversingStep(value: nat, v: nat, r: nat, sc: nat)
    requires Reversing(value, v, r, sc) && v != 0
    ensures sc >= 1 && Reversing(value, v / 2, 2 * r % TICKS + v % 2, sc - 1)
  {
    hide Pow2;
    assert Pow2(0) == 1 by { Pow2Zero(); }
    assert sc >= 1;
    Pow2Next(sc - 1);
    ShiftedStaysEven(r);
    ShiftStep(r, sc, v % 2);
    assert Reversed(v, sc) == v % 2 * Pow2(sc - 1) + Reversed(v / 2, sc - 1);
  }

  lemma Pow2Zero()
    ensures Pow2(0) == 1
  {
  }

  lemma ReversingEnds(value: nat, r: nat, sc: nat)
    requires Reversing(value, 0, r, sc)
    ensures r * Pow2(sc) % TICKS == Reversed(value, 32)
    ensures forall i | 0 <= i < 32 :: Bit(Reversed(value, 32), 31 - i) == Bit(value, i)
  {
    hide Bit, Reversed;
    ZeroHasNoBits(sc);
    forall i | 0 <= i < 32 ensures Bit(Reversed(value, 32), 31 - i) == Bit(value, i) {
      ReversedBit(value, 32, i);
    }
  }

  /** __RBIT. After `r <<= 1` the lowest bit is clear, so `r |= v & 1` is an addition. */
  method Rbit(value: Word) returns (result: Word)
    ensures result == Reversed(value, 32)
    ensures forall i | 0 <= i < 32 :: Bit(result, 31 - i) == Bit(value, i)
  {
    hide Reversing, Bit, Reversed, Pow2;
    var v: nat, r: nat, sc: nat := value, value, 31;
    v := v / 2;
    ReversingStarts(value);
    while v != 0
      invariant Reversing(value, v, r, sc)
      decreases sc
    {
      ReversingStep(value, v, r, sc);
      r := 2 * r % TICKS;
      r := r + v % 2;
      sc := sc - 1;
      v := v / 2;
    }
    ReversingEnds(value, r, sc);
    result := r * Pow2(sc) % TICKS;
  }

  /** The one-bit mask stands `count` places below the top, and only zeros are above it. */
  predicate Scanning(data: nat, mask: nat, count: nat) {
    && count <= 31 && mask == Pow2(31 - count) && 0 < data < Pow2(32 - count)
    && LeadingZeros(data, 32) == count + LeadingZeros(data, 32 - count)
  }

  lemma ScanStarts(data: Word)
    requires data > 0
    ensures Scanning(data, 0x8000_0000, 0)
  {
    Pow32();
  }

  lemma ScanStep(data: nat, mask: nat, count: nat)
    requires Scanning(data, mask, count) && mask > 0 && data / mask % 2 == 0
    ensures count < 31 && Scanning(data, mask / 2, count + 1)
  {
    hide Pow2;
    NextBitClear(data, 31 - count);
    Pow2Next(30 - count);
  }

  lemma ScanEnds(data: nat, mask: nat, count: nat)
    requires Scanning(data, mask, count) && mask > 0 && data / mask % 2 != 0
    ensures count == LeadingZeros(data, 32) <= 31
  {
  }

  lemma ScanMask(data: nat, mask: nat, count: nat)
    requires Scanning(data, mask, count)
    ensures mask > 0 && count <= 31
  {
  }

  /** __CLZ. `data & mask` is the bit under the one-bit mask. */
  method Clz(data: Word) returns (count: nat)
    ensures count == LeadingZeros(data, 32) <= 32
    ensures data == 0 <==> count == 32
  {
    hide Scanning, LeadingZeros, Pow2;
    if data == 0 {
      ZeroHasNoBits(32);
      return 32;
    }
    count := 0;
    var mask: nat := 0x8000_0000;
    ScanStarts(data);
    while data / mask % 2 == 0
      invariant Scanning(data, mask, count) && mask > 0 && count <= 31
      decreases 32 - count
    {
      ScanStep(data, mask, count);
      count := count + 1;
      mask := mask / 2;
      ScanMask(data, mask, count);
    }
    ScanEnds(data, mask, count);
  }

  /** A clear top bit leaves a shorter number. */
  lemma NextBitClear(data: nat, k: nat)
    requires 0 < data < Pow2(k + 1) && data / Pow2(k) % 2 == 0
    ensures data < Pow2(k) && k >= 1
  {
    var p := Pow2(k);
    if data >= p {
      QuotientIs(data, p, 1, data - p);
    }
  }

  /** The composition the header offers: leading zeros of the reversed word count the trailing
      zeros, 32 for zero. */
  method TrailingZeroCount(value: Word) returns (count: nat)
    ensures count == TrailingZeros(value, 32)
    ensures forall i | 0 <= i < count :: Bit(value, i) == 0
    ensures count < 32 ==> Bit(value, count) == 1
  {
    var reversed := Rbit(value);
    count := Clz(reversed);
    LeadingOfReversed(value, 32);
    TrailingMeans(value, 32);
  }
}
