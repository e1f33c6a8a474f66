/** The portable 64x64 to 128 bit multiplication, on integers with every 64-bit
    wrap-around written out. */
module WideMultiply {
  import opened Machine

  type Word = x: int | 0 <= x < 0x1_0000_0000_0000_0000

  datatype Hash128 = Hash128(low64: Word, high64: Word)

  function Low(x: Word): Word { x % 0x1_0000_0000 }
  function High(x: Word): Word { x / 0x1_0000_0000 }

  function ShiftLeft32(x: Word): Word { Wrap64(x * 0x1_0000_0000) }

  /** XXH_mult32to64 drops the high halves of both operands. */
  function Mult32to64(x: Word, y: Word): Word { Wrap64(Low(x) * Low(y)) }

  /** Bitwise or, from the least significant bit upwards. */
  function Or(a: nat, b: nat): nat {
    if a == 0 && b == 0 then 0
    else 2 * Or(a / 2, b / 2) + (if a % 2 == 1 || b % 2 == 1 then 1 else 0)
  }

  function Pow2(k: nat): (p: nat)
    ensures p > 0
  {
    if k == 0 then 1 else 2 * Pow2(k - 1)
  }

  function LoLo(lhs: Word, rhs: Word): Word { Mult32to64(Low(lhs), Low(rhs)) }
  function HiLo(lhs: Word, rhs: Word): Word { Mult32to64(High(lhs), Low(rhs)) }
  function LoHi(lhs: Word, rhs: Word): Word { Mult32to64(Low(lhs), High(rhs)) }
  function HiHi(lhs: Word, rhs: Word): Word { Mult32to64(High(lhs), High(rhs)) }

  /** The two sums, before the machine truncates them. */
  function ExactCross(lhs: Word, rhs: Word): nat {
    High(LoLo(lhs, rhs)) + Low(HiLo(lhs, rhs)) + LoHi(lhs, rhs)
  }

  function ExactUpper(lhs: Word, rhs: Word): nat {
    High(HiLo(lhs, rhs)) + High(Wrap64(ExactCross(lhs, rhs))) + HiHi(lhs, rhs)
  }

  function Mult64to128(lhs: Word, rhs: Word): Hash128 {
    var cross := Wrap64(ExactCross(lhs, rhs));
    var lower := Wrap64(Or(ShiftLeft32(cross), Low(LoLo(lhs, rhs))));
    Hash128(lower, Wrap64(ExactUpper(lhs, rhs)))
  }

  lemma {:induction false} OrZero(a: nat)
    ensures Or(a, 0) == a
  {
    if a > 0 { OrZero(a / 2); }
  }

  /** When the low k bits of the first operand are clear and the second fits in
      them, or is addition. */
  lemma {:induction false} OrOfDisjoint(q: nat, b: nat, k: nat)
    requires b < Pow2(k)
    ensures q * Pow2(k) >= 0 && Or(q * Pow2(k), b) == q * Pow2(k) + b
  {
    var p := Pow2(k);
    if k == 0 {
      OrZero(q);
    } else {
      var half := Pow2(k - 1);
      assert q * p == 2 * (q * half);
      OrOfDisjoint(q, b / 2, k - 1);
    }
  }

  lemma {:induction false} Monotone(a: nat, b: nat, c: nat)
    requires b <= c
    ensures a * b <= a * c
  {}

  lemma {:induction false} ProductBound(a: nat, b: nat)
    requires a <= 0xFFFF_FFFF && b <= 0xFFFF_FFFF
    ensures 0 <= a * b <= 0xFFFF_FFFE_0000_0001
  {
    Monotone(a, b, 0xFFFF_FFFF);
    assert a * 0xFFFF_FFFF <= 0xFFFF_FFFF * 0xFFFF_FFFF;
  }

  lemma {:induction false} MultExact(x: Word, y: Word)
    requires x <= 0xFFFF_FFFF && y <= 0xFFFF_FFFF
    ensures Mult32to64(x, y) == x * y <= 0xFFFF_FFFE_0000_0001
  {
    ProductBound(x, y);
    Wrap64Exact(x * y);
    assert Low(x) == x && Low(y) == y;
  }

  /** None of the four partial products wraps. */
  lemma {:induction false} PartialProducts(lhs: Word, rhs: Word)
    ensures LoLo(lhs, rhs) == Low(lhs) * Low(rhs) <= 0xFFFF_FFFE_0000_0001
    ensures HiLo(lhs, rhs) == High(lhs) * Low(rhs) <= 0xFFFF_FFFE_0000_0001
    ensures LoHi(lhs, rhs) == Low(lhs) * High(rhs) <= 0xFFFF_FFFE_0000_0001
    ensures HiHi(lhs, rhs) == High(lhs) * High(rhs) <= 0xFFFF_FFFE_0000_0001
  {
    MultExact(Low(lhs), Low(rhs));
    MultExact(High(lhs), Low(rhs));
    MultExact(Low(lhs), High(rhs));
    MultExact(High(lhs), High(rhs));
  }

  /** Neither sum overflows 64 bits, whatever the operands. */
  lemma {:induction false} SumsNeverOverflow(lhs: Word, rhs: Word)
    ensures ExactCross(lhs, rhs) <= 0xFFFF_FFFF_FFFF_FFFF
    ensures ExactUpper(lhs, rhs) <= 0xFFFF_FFFF_FFFF_FFFF
  {
    PartialProducts(lhs, rhs);
  }

  /** Distributes the product of two two-digit numbers in base 2^32. */
  lemma {:induction false} LongMultiplication(a: nat, b: nat, c: nat, d: nat)
    ensures (a * 0x1_0000_0000 + b) * (c * 0x1_0000_0000 + d)
         == (a * c) * 0x1_0000_0000_0000_0000 + (a * d + b * c) * 0x1_0000_0000 + b * d
  {}

  lemma {:induction false} ShiftLeft32Drops(x: Word)
    ensures ShiftLeft32(x) == Low(x) * 0x1_0000_0000
  {}

  /** The carries that the two sums pass on add up to the schoolbook total. */
  lemma {:induction false} CarriesAddUp(loLo: Word, hiLo: Word, loHi: Word, hiHi: Word, cross: nat)
    requires cross == loLo / 0x1_0000_0000 + hiLo % 0x1_0000_0000 + loHi
    ensures (hiLo / 0x1_0000_0000 + cross / 0x1_0000_0000 + hiHi) * 0x1_0000_0000_0000_0000
              + (cross % 0x1_0000_0000) * 0x1_0000_0000 + loLo % 0x1_0000_0000
         == hiHi * 0x1_0000_0000_0000_0000 + (hiLo + loHi) * 0x1_0000_0000 + loLo
  {}

  lemma {:induction false} Pow2At32()
    ensures Pow2(32) == 0x1_0000_0000
  {
    assert Pow2(8) == 256;
    assert Pow2(16) == 65536;
    assert Pow2(24) == 0x100_0000;
  }

  lemma {:induction false} LowerWord(lhs: Word, rhs: Word)
    ensures Mult64to128(lhs, rhs).low64
         == Low(Wrap64(ExactCross(lhs, rhs))) * 0x1_0000_0000 + Low(LoLo(lhs, rhs))
  {
    hide Or, LoLo, ExactCross, ExactUpper;
    var cross := Wrap64(ExactCross(lhs, rhs));
    Pow2At32();
    ShiftLeft32Drops(cross);
    OrOfDisjoint(Low(cross), Low(LoLo(lhs, rhs)), 32);
    Wrap64Exact(Low(cross) * 0x1_0000_0000 + Low(LoLo(lhs, rhs)));
  }

  lemma {:induction false} ProductSplits(lhs: Word, rhs: Word)
    ensures lhs * rhs == HiHi(lhs, rhs) * 0x1_0000_0000_0000_0000
                         + (HiLo(lhs, rhs) + LoHi(lhs, rhs)) * 0x1_0000_0000 + LoLo(lhs, rhs)
  {
    hide LoLo, HiLo, LoHi, HiHi;
    var a, b, c, d := High(lhs), Low(lhs), High(rhs), Low(rhs);
    PartialProducts(lhs, rhs);
    assert lhs == a * 0x1_0000_0000 + b && rhs == c * 0x1_0000_0000 + d;
    hide High, Low;
    LongMultiplication(a, b, c, d);
  }

  /** The pair returned is the exact product. */
  lemma {:induction false} MultiplyIsExact(lhs: Word, rhs: Word)
    ensures var r := Mult64to128(lhs, rhs); r.high64 * 0x1_0000_0000_0000_0000 + r.low64 == lhs * rhs
  {
    hide LoLo, HiLo, LoHi, HiHi, Or, Wrap64;
    var cross, upper := ExactCross(lhs, rhs), ExactUpper(lhs, rhs);
    SumsNeverOverflow(lhs, rhs);
    Wrap64Exact(cross);
    Wrap64Exact(upper);
    LowerWord(lhs, rhs);
    CarriesAddUp(LoLo(lhs, rhs), HiLo(lhs, rhs), LoHi(lhs, rhs), HiHi(lhs, rhs), cross);
    ProductSplits(lhs, rhs);
  }
}
