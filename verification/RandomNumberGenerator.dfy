/** The three xorshift generators of the attack tool. */
module RandomNumberGenerator {
  import opened Orbits

  // ----- One step of each width, and its inverse -----

  function Left7(x: bv16): bv16 { x ^ (x << 7) }
  function Right9(x: bv16): bv16 { x ^ (x >> 9) }
  function Left8(x: bv16): bv16 { x ^ (x << 8) }
  function UnLeft7(x: bv16): bv16 { x ^ (x << 7) ^ (x << 14) }

  function Left14(x: bv32): bv32 { x ^ (x << 14) }
  function Right13(x: bv32): bv32 { x ^ (x >> 13) }
  function Left15(x: bv32): bv32 { x ^ (x << 15) }
  function UnLeft14(x: bv32): bv32 { x ^ (x << 14) ^ (x << 28) }
  function UnRight13(x: bv32): bv32 { x ^ (x >> 13) ^ (x >> 26) }
  function UnLeft15(x: bv32): bv32 { x ^ (x << 15) ^ (x << 30) }

  function WideLeft14(x: bv64): bv64 { x ^ (x << 14) }
  function WideRight23(x: bv64): bv64 { x ^ (x >> 23) }
  function WideLeft33(x: bv64): bv64 { x ^ (x << 33) }
  function UnWideLeft14(x: bv64): bv64 { x ^ (x << 14) ^ (x << 28) ^ (x << 42) ^ (x << 56) }
  function UnWideRight23(x: bv64): bv64 { x ^ (x >> 23) ^ (x >> 46) }

  function Step16(x: bv16): bv16 { Left8(Right9(Left7(x))) }
  function Step32(x: bv32): bv32 { Left15(Right13(Left14(x))) }
  function Step64(x: bv64): bv64 { WideLeft33(WideRight23(WideLeft14(x))) }

  function Back16(x: bv16): bv16 { UnLeft7(Right9(Left8(x))) }
  function Back32(x: bv32): bv32 { UnLeft14(UnRight13(UnLeft15(x))) }
  function Back64(x: bv64): bv64 { UnWideLeft14(UnWideRight23(WideLeft33(x))) }

  lemma {:induction false} ShiftsCancel16(x: bv16)
    ensures UnLeft7(Left7(x)) == x && Left7(UnLeft7(x)) == x
    ensures Right9(Right9(x)) == x && Left8(Left8(x)) == x
  {
    assert UnLeft7(x ^ (x << 7)) == x && Left7(x ^ (x << 7) ^ (x << 14)) == x;
    assert Right9(x ^ (x >> 9)) == x && Left8(x ^ (x << 8)) == x;
  }

  lemma {:induction false} ShiftsCancel32(x: bv32)
    ensures UnLeft14(Left14(x)) == x && Left14(UnLeft14(x)) == x
    ensures UnRight13(Right13(x)) == x && Right13(UnRight13(x)) == x
    ensures UnLeft15(Left15(x)) == x && Left15(UnLeft15(x)) == x
  {
    assert UnLeft14(x ^ (x << 14)) == x && Left14(x ^ (x << 14) ^ (x << 28)) == x;
    assert UnRight13(x ^ (x >> 13)) == x && Right13(x ^ (x >> 13) ^ (x >> 26)) == x;
    assert UnLeft15(x ^ (x << 15)) == x && Left15(x ^ (x << 15) ^ (x << 30)) == x;
  }

  lemma {:induction false} ShiftsCancel64(x: bv64)
    ensures UnWideLeft14(WideLeft14(x)) == x && WideLeft14(UnWideLeft14(x)) == x
    ensures UnWideRight23(WideRight23(x)) == x && WideRight23(UnWideRight23(x)) == x
    ensures WideLeft33(WideLeft33(x)) == x
  {
    assert UnWideLeft14(x ^ (x << 14)) == x;
    assert WideLeft14(x ^ (x << 14) ^ (x << 28) ^ (x << 42) ^ (x << 56)) == x;
    assert UnWideRight23(x ^ (x >> 23)) == x && WideRight23(x ^ (x >> 23) ^ (x >> 46)) == x;
    assert WideLeft33(x ^ (x << 33)) == x;
  }

  /** Where three seeds lead: every shift of every step moves a bit that is set. */
  lemma {:induction false} FirstValues()
    ensures Step16(0xACE1) == 0xD30F
    ensures Step32(0x9E3779B9) == 0xDDE33B70
    ensures Step64(0x9E3779B97F4A7C15) == 0xE45EF1415203EBD5
  {}

  /** Each step is a bijection: the inverse cancels it on both sides. */
  lemma {:induction false} StepsInvert(x: bv16, y: bv32, z: bv64)
    ensures Back16(Step16(x)) == x && Step16(Back16(x)) == x
    ensures Back32(Step32(y)) == y && Step32(Back32(y)) == y
    ensures Back64(Step64(z)) == z && Step64(Back64(z)) == z
  {
    hide Left7, Right9, Left8, UnLeft7, Left14, Right13, Left15, UnLeft14, UnRight13, UnLeft15;
    hide WideLeft14, WideRight23, WideLeft33, UnWideLeft14, UnWideRight23;
    ShiftsCancel16(x);
    ShiftsCancel16(Left7(x)); ShiftsCancel16(Right9(Left7(x)));
    ShiftsCancel16(Left8(x)); ShiftsCancel16(Right9(Left8(x)));
    ShiftsCancel32(y);
    ShiftsCancel32(Left14(y)); ShiftsCancel32(Right13(Left14(y)));
    ShiftsCancel32(UnLeft15(y)); ShiftsCancel32(UnRight13(UnLeft15(y)));
    ShiftsCancel64(z);
    ShiftsCancel64(WideLeft14(z)); ShiftsCancel64(WideRight23(WideLeft14(z)));
    ShiftsCancel64(WideLeft33(z)); ShiftsCancel64(UnWideRight23(WideLeft33(z)));
  }

  lemma {:induction false} StepsOneToOne()
    ensures OneToOne(Step16) && OneToOne(Step32) && OneToOne(Step64)
  {
    hide Step16, Step32, Step64, Back16, Back32, Back64;
    forall x, y | Step16(x) == Step16(y) ensures x == y { StepsInvert(x, 0, 0); StepsInvert(y, 0, 0); }
    forall x, y | Step32(x) == Step32(y) ensures x == y { StepsInvert(0, x, 0); StepsInvert(0, y, 0); }
    forall x, y | Step64(x) == Step64(y) ensures x == y { StepsInvert(0, 0, x); StepsInvert(0, 0, y); }
  }

  lemma {:induction false} StepsFixZero()
    ensures Step16(0) == 0 && Step32(0) == 0 && Step64(0) == 0
  {}

  function Code16(x: bv16): int { x as int }
  function Code32(x: bv32): int { x as int }
  function Code64(x: bv64): int { x as int }

  lemma {:induction false} CodeFits(x: bv16)
    ensures 0 <= Code16(x) < 0x1_0000
  {}

  lemma {:induction false} Numbered()
    ensures Numbers(Code16, 0x1_0000)
    ensures Numbers(Code32, 0x1_0000_0000)
    ensures Numbers(Code64, 0x1_0000_0000_0000_0000)
  {
    forall x: bv16, y: bv16 | Code16(x) == Code16(y) ensures x == y { assert x as int as bv16 == y as int as bv16; }
    forall x: bv32, y: bv32 | Code32(x) == Code32(y) ensures x == y { assert x as int as bv32 == y as int as bv32; }
    forall x: bv64, y: bv64 | Code64(x) == Code64(y) ensures x == y { assert x as int as bv64 == y as int as bv64; }
  }

  /** Every seed of every width comes back after finitely many calls, and a seed other
      than zero never yields zero, however often the generator is called. */
  lemma {:induction false} StreamsArePeriodic(x: bv16, y: bv32, z: bv64)
    ensures exists n: nat :: 0 < n <= 0x1_0000 && Iterate(Step16, n, x) == x
    ensures exists n: nat :: 0 < n <= 0x1_0000_0000 && Iterate(Step32, n, y) == y
    ensures exists n: nat :: 0 < n <= 0x1_0000_0000_0000_0000 && Iterate(Step64, n, z) == z
    ensures x != 0 ==> forall n: nat :: Iterate(Step16, n, x) != 0
    ensures y != 0 ==> forall n: nat :: Iterate(Step32, n, y) != 0
    ensures z != 0 ==> forall n: nat :: Iterate(Step64, n, z) != 0
  {
    StepsOneToOne();
    StepsFixZero();
    Numbered();
    hide *;
    var a := ReturnsToStart(Step16, Code16, 0x1_0000, x);
    var b := ReturnsToStart(Step32, Code32, 0x1_0000_0000, y);
    var c := ReturnsToStart(Step64, Code64, 0x1_0000_0000_0000_0000, z);
    forall n: nat | x != 0 ensures Iterate(Step16, n, x) != 0 { NeverReaches(Step16, 0, n, x); }
    forall n: nat | y != 0 ensures Iterate(Step32, n, y) != 0 { NeverReaches(Step32, 0, n, y); }
    forall n: nat | z != 0 ensures Iterate(Step64, n, z) != 0 { NeverReaches(Step64, 0, n, z); }
  }

  // ----- The generator object -----

  /** C's remainder keeps the sign of its left side, so only the size of the divisor
      counts; the result is truncated to 16 bits. */
  function InInterval(seed: int, lower: nat, upper: nat): nat
    requires 0 <= seed && lower != upper
  {
    var width := if lower < upper then upper - lower else lower - upper;
    (seed % width + lower) % 0x1_0000
  }

  lemma {:induction false} Divides(x: nat, w: nat) returns (q: nat, k: nat)
    requires w > 0
    ensures x == q * w + k && k == x % w < w
  {
    q, k := x / w, x % w;
  }

  lemma {:induction false} WrapsOnce(x: nat)
    requires x < 0x2_0000
    ensures x % 0x1_0000 == if x < 0x1_0000 then x else x - 0x1_0000
  {}

  lemma {:induction false} IntervalOf(seed: nat, lower: nat, upper: nat, width: nat, k: nat)
    requires lower != upper && width == (if lower < upper then upper - lower else lower - upper) && k == seed % width
    ensures InInterval(seed, lower, upper) == (k + lower) % 0x1_0000
  {}

  /** Whichever limit is the larger: the value lies as far behind lower as the seed lies
      behind a multiple of the width, modulo 2^16. */
  lemma {:induction false} IntervalExactly(seed: nat, lower: nat, upper: nat) returns (q: nat, k: nat)
    requires lower < 0x1_0000 && upper < 0x1_0000 && lower != upper
    ensures var width := if lower < upper then upper - lower else lower - upper; k < width && seed == q * width + k
    ensures InInterval(seed, lower, upper) == if lower + k < 0x1_0000 then lower + k else lower + k - 0x1_0000
  {
    var width := if lower < upper then upper - lower else lower - upper;
    hide InInterval;
    q, k := Divides(seed, width);
    IntervalOf(seed, lower, upper, width, k);
    WrapsOnce(k + lower);
  }

  /** The interval form lands in [lower, upper) for every seed exactly when lower is the
      smaller limit. */
  lemma {:induction false} IntervalForm(lower: nat, upper: nat)
    requires lower < 0x1_0000 && upper < 0x1_0000 && lower != upper
    ensures lower < upper <==>
      forall seed :: 0 <= seed < 0x1_0000 ==> lower <= InInterval(seed, lower, upper) < upper
  {
    if upper < lower {
      assert InInterval(0, lower, upper) == lower;
    }
  }

  class Generator {
    var seedX16: bv16
    var seedX32: bv32
    var seedX64: bv64

    /** The seeds come from the C library's rand. */
    constructor (seed16: bv16, seed32: bv32, seed64: bv64)
      ensures seedX16 == seed16 && seedX32 == seed32 && seedX64 == seed64
    {
      seedX16, seedX32, seedX64 := seed16, seed32, seed64;
    }

    method GenRdm16Bit() returns (r: bv16)
      modifies `seedX16
      ensures r == seedX16 == Step16(old(seedX16))
      ensures forall x: bv16, n: nat :: old(seedX16) == Iterate(Step16, n, x) ==> r == Iterate(Step16, n + 1, x)
    {
      hide Left7, Right9, Left8;
      seedX16 := Left7(seedX16);
      seedX16 := Right9(seedX16);
      seedX16 := Left8(seedX16);
      r := seedX16;
    }

    method GenRdm32Bit() returns (r: bv32)
      modifies `seedX32
      ensures r == seedX32 == Step32(old(seedX32))
      ensures forall x: bv32, n: nat :: old(seedX32) == Iterate(Step32, n, x) ==> r == Iterate(Step32, n + 1, x)
    {
      hide Left14, Right13, Left15;
      seedX32 := Left14(seedX32);
      seedX32 := Right13(seedX32);
      seedX32 := Left15(seedX32);
      r := seedX32;
    }

    method GenRdm64Bit() returns (r: bv64)
      modifies `seedX64
      ensures r == seedX64 == Step64(old(seedX64))
      ensures forall x: bv64, n: nat :: old(seedX64) == Iterate(Step64, n, x) ==> r == Iterate(Step64, n + 1, x)
    {
      hide WideLeft14, WideRight23, WideLeft33;
      seedX64 := WideLeft14(seedX64);
      seedX64 := WideRight23(seedX64);
      seedX64 := WideLeft33(seedX64);
      r := seedX64;
    }

    method GenRdm16BitInInterval(lower: nat, upper: nat) returns (r: nat)
      requires lower < 0x1_0000 && upper < 0x1_0000 && lower != upper
      modifies `seedX16
      ensures seedX16 == Step16(old(seedX16))
      ensures r == InInterval(Code16(seedX16), lower, upper)
      ensures lower < upper ==> lower <= r < upper
    {
      hide Step16, InInterval;
      IntervalForm(lower, upper);
      var seed := GenRdm16Bit();
      CodeFits(seed);
      r := InInterval(Code16(seed), lower, upper);
    }
  }

  lemma {:induction false} SmallRemainder(x: nat, w: nat)
    requires x < w
    ensures x % w == x
  {}

  /** No value of the interval is left out: v comes from a seed below the width. */
  lemma {:induction false} IntervalReached(lower: nat, upper: nat, v: nat)
    requires lower <= v < upper < 0x1_0000
    ensures 0 <= v - lower < 0x1_0000 && InInterval(v - lower, lower, upper) == v
  {
    SmallRemainder(v - lower, upper - lower);
    SmallRemainder(v, 0x1_0000);
  }
}
