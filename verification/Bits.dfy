/** Fixed-width arithmetic of aeron/util/bits.go, and the integer conversions Go performs silently. */
module Bits {

  type byte = b: int | 0 <= b < 256

  const TWO_31: int := 0x8000_0000
  const TWO_32: int := 0x1_0000_0000

  /** Go's `int32(x)`: keep the low 32 bits and read them as two's complement. */
  function ToInt32(x: int): (r: int)
    ensures -TWO_31 <= r < TWO_31
    ensures r % TWO_32 == x % TWO_32
    ensures r == x <==> -TWO_31 <= x < TWO_31
  {
    var low := x % TWO_32;
    if low < TWO_31 then low else low - TWO_32
  }

  lemma MulAssoc(a: int, b: int, c: int)
    ensures a * (b * c) == (a * b) * c
  {
  }

  /** Congruent values narrow to the same int32. */
  lemma ToInt32Congruent(x: int, y: int, k: int)
    requires x == y + k * TWO_32
    ensures ToInt32(x) == ToInt32(y)
  {
    assert x % TWO_32 == y % TWO_32;
  }

  /** Narrowing an operand first is harmless: only the final value is truncated. */
  lemma ToInt32Nested(a: int, b: int)
    ensures ToInt32(a - ToInt32(b)) == ToInt32(a - b)
    ensures ToInt32(ToInt32(b) + a) == ToInt32(b + a)
  {
    var k := b / TWO_32 - ToInt32(b) / TWO_32;
    assert b == ToInt32(b) + k * TWO_32;
    ToInt32Congruent(a - ToInt32(b), a - b, k);
    ToInt32Congruent(b + a, ToInt32(b) + a, k);
  }

  /** A multiple of c strictly between -c and c is zero. */
  lemma SmallMultiple(k: int, c: int)
    requires c > 0 && -c < k * c < c
    ensures k == 0
  {
  }

  /** Taking off the remainder leaves a multiple. */
  lemma RoundedDown(x: int, d: int)
    requires d > 0
    ensures (x - x % d) % d == 0
  {
    var q := x / d;
    var y := x - x % d;
    assert x == d * q + x % d && y == d * (y / d) + y % d;
    assert (q - y / d) * d == y % d;
    SmallMultiple(q - y / d, d);
  }

  /** The powers of two up to 2^32 are the positive divisors of 2^32. */
  predicate IsAlignment(a: int) {
    a > 0 && TWO_32 % a == 0
  }

  /** `(value + (alignment - 1)) & ^(alignment - 1)` on int32, for a power-of-two alignment. */
  function AlignInt32(value: int, alignment: int): (r: int)
    requires IsAlignment(alignment)
    ensures r % alignment == 0
    ensures -TWO_31 <= value && value + alignment <= TWO_31 ==> value <= r < value + alignment
  {
    var s := ToInt32(value + alignment - 1);
    RoundedDown(s, alignment);
    s - s % alignment
  }

  // ---------------------------------------------------------------------------------------------
  // NumberOfTrailingZeroes
  // ---------------------------------------------------------------------------------------------

  /** The 32-entry lookup table. */
  function TrailingZeroesTable(i: bv32): (r: bv32)
    ensures r <= 31
  {
    match i
    case 0 => 0 case 1 => 1 case 2 => 2 case 3 => 24 case 4 => 3 case 5 => 19 case 6 => 6 case 7 => 25
    case 8 => 22 case 9 => 4 case 10 => 20 case 11 => 10 case 12 => 16 case 13 => 7 case 14 => 12 case 15 => 26
    case 16 => 31 case 17 => 23 case 18 => 18 case 19 => 5 case 20 => 21 case 21 => 9 case 22 => 15 case 23 => 11
    case 24 => 30 case 25 => 17 case 26 => 8 case 27 => 14 case 28 => 29 case 29 => 13 case 30 => 28 case _ => 27
  }

  function NumberOfTrailingZeroes(value: bv32): (r: bv32)
    ensures r <= 32 && (value != 0 ==> r <= 31)
  {
    if value == 0 then 32 else TrailingZeroesTable(((value & (0 - value)) * 0x04D7651F) >> 27)
  }

  predicate OneHot(b: bv32) {
    b != 0 && b & (b - 1) == 0
  }

  lemma LowestBit(v: bv32, b: bv32)
    requires v != 0 && b == v & (0 - v)
    ensures OneHot(b) && v & (b - 1) == 0 && v & b == b
  {
  }

  lemma TableInvertsShiftLow(b: bv32)
    requires OneHot(b) && b < 0x1_0000
    ensures 1 << NumberOfTrailingZeroes(b) == b
  {
    assert b == 0x1 || b == 0x2 || b == 0x4 || b == 0x8 || b == 0x10 || b == 0x20 || b == 0x40 || b == 0x80
        || b == 0x100 || b == 0x200 || b == 0x400 || b == 0x800 || b == 0x1000 || b == 0x2000 || b == 0x4000
        || b == 0x8000;
  }

  lemma TableInvertsShiftHigh(b: bv32)
    requires OneHot(b) && b >= 0x1_0000
    ensures 1 << NumberOfTrailingZeroes(b) == b
  {
    assert b == 0x1_0000 || b == 0x2_0000 || b == 0x4_0000 || b == 0x8_0000
        || b == 0x10_0000 || b == 0x20_0000 || b == 0x40_0000 || b == 0x80_0000
        || b == 0x100_0000 || b == 0x200_0000 || b == 0x400_0000 || b == 0x800_0000
        || b == 0x1000_0000 || b == 0x2000_0000 || b == 0x4000_0000 || b == 0x8000_0000;
  }

  lemma TableInvertsShift(b: bv32)
    requires OneHot(b)
    ensures 1 << NumberOfTrailingZeroes(b) == b
  {
    if b < 0x1_0000 { TableInvertsShiftLow(b); } else { TableInvertsShiftHigh(b); }
  }

  /** For every non-zero word the table gives the true count: bit r is set and all bits below it are clear. */
  lemma TrailingZeroesCorrect(v: bv32)
    requires v != 0
    ensures var r := NumberOfTrailingZeroes(v); v & ((1 << r) - 1) == 0 && v & (1 << r) != 0
  {
    var b := v & (0 - v);
    LowestBit(v, b);
    TableInvertsShift(b);
    assert b & (0 - b) == b;
  }

  // ---------------------------------------------------------------------------------------------
  // FastMod3
  // ---------------------------------------------------------------------------------------------

  /** The 62-entry lookup table. */
  function Mod3Table(i: nat): (r: int)
    requires i < 62
    ensures r == i % 3
  {
    match i
    case 0 => 0 case 1 => 1 case 2 => 2 case 3 => 0 case 4 => 1 case 5 => 2 case 6 => 0 case 7 => 1 case 8 => 2
    case 9 => 0 case 10 => 1 case 11 => 2 case 12 => 0 case 13 => 1 case 14 => 2 case 15 => 0 case 16 => 1 case 17 => 2
    case 18 => 0 case 19 => 1 case 20 => 2 case 21 => 0 case 22 => 1 case 23 => 2 case 24 => 0 case 25 => 1 case 26 => 2
    case 27 => 0 case 28 => 1 case 29 => 2 case 30 => 0 case 31 => 1 case 32 => 2 case 33 => 0 case 34 => 1 case 35 => 2
    case 36 => 0 case 37 => 1 case 38 => 2 case 39 => 0 case 40 => 1 case 41 => 2 case 42 => 0 case 43 => 1 case 44 => 2
    case 45 => 0 case 46 => 1 case 47 => 2 case 48 => 0 case 49 => 1 case 50 => 2 case 51 => 0 case 52 => 1 case 53 => 2
    case 54 => 0 case 55 => 1 case 56 => 2 case 57 => 0 case 58 => 1 case 59 => 2
    case 60 => 0
    case _ => 1
  }

  /** The index that `FastMod3` looks up, after its three folding steps. */
  function Mod3Fold(value: nat): (r: nat) {
    var v1 := value / 0x1_0000 + value % 0x1_0000;
    var v2 := v1 / 0x100 + v1 % 0x100;
    v2 / 0x10 + v2 % 0x10
  }

  /** Moving the high part of a number down keeps the residue, when the base is 1 modulo 3. */
  lemma FoldOnce(v: nat, base: int)
    requires base == 0x1_0000 || base == 0x100 || base == 0x10
    ensures (v / base + v % base) % 3 == v % 3
  {
    var high, low := v / base, v % base;
    assert v == high * base + low;
    if base == 0x1_0000 {
      assert v == (high + low) + 3 * (0x5555 * high);
    } else if base == 0x100 {
      assert v == (high + low) + 3 * (0x55 * high);
    } else {
      assert v == (high + low) + 3 * (5 * high);
    }
  }

  /** Each fold keeps the residue, since 2^16, 2^8 and 2^4 are all 1 modulo 3, and 32-bit inputs stay in the table. */
  lemma FoldKeepsResidue(value: nat)
    requires value < TWO_32
    ensures Mod3Fold(value) < 62 && Mod3Fold(value) % 3 == value % 3
  {
    FoldOnce(value, 0x1_0000);
    var v1 := value / 0x1_0000 + value % 0x1_0000;
    FoldOnce(v1, 0x100);
    FoldOnce(v1 / 0x100 + v1 % 0x100, 0x10);
    assert v1 <= 0x1FFFE && v1 / 0x100 + v1 % 0x100 <= 0x2FD;
  }

  function FastMod3(value: nat): (r: int)
    requires value < TWO_32
    ensures r == value % 3
  {
    FoldKeepsResidue(value);
    Mod3Table(Mod3Fold(value))
  }
}
