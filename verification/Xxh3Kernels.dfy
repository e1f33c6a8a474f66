/** The scalar and the SSE2 kernels of XXH3, in place on the eight accumulators.
    Both kinds are proved to compute the same lanes. */
module Xxh3Kernels {
  import opened Xxh3Short

  function Times(x: bv64, y: bv64): bv64 { x * y }
  function Mask32(x: bv64): bv64 { x & 0xFFFFFFFF }

  /** XXH_mult32to64 drops the high halves of both operands. */
  function Mult32to64(x: bv64, y: bv64): bv64 { Times(Mask32(x), Mask32(y)) }

  function Shift32(x: bv64): bv64 { x >> 32 }
  function ShiftUp32(x: bv64): bv64 { x << 32 }

  // ----- The reference: what one stripe does to each lane on its own -----

  function DataKey(input: seq<bv8>, secret: seq<bv8>, i: nat): bv64
    requires i < 8 && |input| == 64 && |secret| == 64
  {
    Xor(ReadLE64(input, 8 * i), ReadLE64(secret, 8 * i))
  }

  function Product(input: seq<bv8>, secret: seq<bv8>, i: nat): bv64
    requires i < 8 && |input| == 64 && |secret| == 64
  {
    var key := DataKey(input, secret, i);
    Mult32to64(key, Shift32(key))
  }

  /** The index with its lowest bit flipped. */
  function Neighbour(i: nat): (j: nat)
    requires i < 8
    ensures j < 8 && j != i
  {
    if i % 2 == 0 then i + 1 else i - 1
  }

  /** A lane gains its own product and the data of its neighbour. */
  function AccumulatedLane(lane: bv64, input: seq<bv8>, secret: seq<bv8>, i: nat): bv64
    requires i < 8 && |input| == 64 && |secret| == 64
  {
    Add(Add(lane, ReadLE64(input, 8 * Neighbour(i))), Product(input, secret, i))
  }

  function Shift47(x: bv64): bv64 { x >> 47 }
  function XorShift47(x: bv64): bv64 { Xor(x, Shift47(x)) }
  function TimesPrime32(x: bv64): bv64 { x * 0x9E3779B1 }

  function ScrambledLane(lane: bv64, secret: seq<bv8>, i: nat): bv64
    requires i < 8 && |secret| == 64
  {
    TimesPrime32(Xor(XorShift47(lane), ReadLE64(secret, 8 * i)))
  }

  function OverPrime32(x: bv64): bv64 { x * 0xCFA4A56B0E8B2F51 }

  function UnscrambledLane(lane: bv64, secret: seq<bv8>, i: nat): bv64
    requires i < 8 && |secret| == 64
  {
    XorShift47(Xor(OverPrime32(lane), ReadLE64(secret, 8 * i)))
  }

  lemma {:induction false} Prime32Cancels(x: bv64)
    ensures OverPrime32(TimesPrime32(x)) == x && TimesPrime32(OverPrime32(x)) == x
  {
    assert OverPrime32(x * 0x9E3779B1) == x && TimesPrime32(x * 0xCFA4A56B0E8B2F51) == x;
  }

  lemma {:induction false} XorTwice(x: bv64, y: bv64)
    ensures Xor(Xor(x, y), y) == x
  {
    assert Xor(x ^ y, y) == x;
  }

  lemma {:induction false} ShiftStays(x: bv64)
    ensures Shift47(Xor(x, Shift47(x))) == Shift47(x)
  {
    assert Shift47(Xor(x, x >> 47)) == x >> 47;
  }

  lemma {:induction false} XorShift47Cancels(x: bv64)
    ensures XorShift47(XorShift47(x)) == x
  {
    hide Xor, Shift47;
    ShiftStays(x);
    XorTwice(x, Shift47(x));
  }

  /** A scramble loses nothing: under every secret it is a bijection of each lane. */
  lemma {:induction false} ScrambleCancels(lane: bv64, secret: seq<bv8>, i: nat)
    requires i < 8 && |secret| == 64
    ensures UnscrambledLane(ScrambledLane(lane, secret, i), secret, i) == lane
    ensures ScrambledLane(UnscrambledLane(lane, secret, i), secret, i) == lane
  {
    hide XorShift47, TimesPrime32, OverPrime32, ReadLE64, Xor;
    var key := ReadLE64(secret, 8 * i);
    Prime32Cancels(Xor(XorShift47(lane), key));
    XorTwice(XorShift47(lane), key);
    XorShift47Cancels(lane);
    XorShift47Cancels(Xor(OverPrime32(lane), key));
    XorTwice(OverPrime32(lane), key);
    Prime32Cancels(lane);
  }

  lemma {:induction false} ZeroWord(secret: seq<bv8>)
    requires secret == seq(64, _ => 0)
    ensures ReadLE64(secret, 0) == 0
  {
    assert secret[0] == 0 && secret[1] == 0 && secret[2] == 0 && secret[3] == 0;
    assert secret[4] == 0 && secret[5] == 0 && secret[6] == 0 && secret[7] == 0;
  }

  /** One scrambled lane, under the secret of zeros. */
  lemma {:induction false} ScrambledOne(secret: seq<bv8>)
    requires secret == seq(64, _ => 0)
    ensures ScrambledLane(0x9E3779B185EBCA87, secret, 0) == 0x52AAD5E88037D819
  {
    ZeroWord(secret);
    hide ReadLE64;
  }

  // ----- Scalar kernels -----

  /** Lane j once the loop has finished the iterations below i. */
  function Partial(lane: bv64, input: seq<bv8>, secret: seq<bv8>, i: nat, j: nat): bv64
    requires j < 8 && |input| == 64 && |secret| == 64
  {
    var data := if Neighbour(j) < i then Add(lane, ReadLE64(input, 8 * Neighbour(j))) else lane;
    if j < i then Add(data, Product(input, secret, j)) else data
  }

  lemma {:induction false} AddCommutes(a: bv64, b: bv64)
    ensures Add(a, b) == Add(b, a)
  {}

  lemma {:induction false} LastTwoSwap(a: bv64, b: bv64, c: bv64)
    ensures Add(Add(a, b), c) == Add(Add(a, c), b)
  {
    assert Add(a + b, c) == a + b + c;
    assert Add(a + c, b) == a + b + c;
  }

  lemma {:induction false} AddSwaps(a: bv64, b: bv64, c: bv64)
    ensures Add(Add(a, b), c) == Add(Add(a, c), b)
    ensures Add(a, Add(b, c)) == Add(Add(b, c), a)
  {
    hide Add;
    LastTwoSwap(a, b, c);
    AddCommutes(a, Add(b, c));
  }

  /** Iteration i touches lane i and its neighbour, in an order that differs with parity. */
  lemma {:induction false} PartialStep(lane: bv64, input: seq<bv8>, secret: seq<bv8>, i: nat, j: nat)
    requires i < 8 && j < 8 && |input| == 64 && |secret| == 64
    ensures Partial(lane, input, secret, 0, j) == lane
    ensures Partial(lane, input, secret, 8, j) == AccumulatedLane(lane, input, secret, j)
    ensures Partial(lane, input, secret, i + 1, j) ==
      if j == i then Add(Partial(lane, input, secret, i, j), Product(input, secret, i))
      else if j == Neighbour(i) then Add(Partial(lane, input, secret, i, j), ReadLE64(input, 8 * i))
      else Partial(lane, input, secret, i, j)
  {
    hide Add, ReadLE64, Product;
    AddSwaps(lane, Product(input, secret, j), ReadLE64(input, 8 * Neighbour(j)));
  }

  lemma {:induction false} ProductOfKey(input: seq<bv8>, secret: seq<bv8>, i: nat)
    requires i < 8 && |input| == 64 && |secret| == 64
    ensures var key := Xor(ReadLE64(input, 8 * i), ReadLE64(secret, 8 * i));
      Product(input, secret, i) == Mult32to64(key, Shift32(key))
  {
    hide ReadLE64, Xor, Mult32to64, Shift32;
  }

  method AccumulateScalar(acc: array<bv64>, input: seq<bv8>, secret: seq<bv8>)
    requires acc.Length == 8 && |input| == 64 && |secret| == 64
    modifies acc
    ensures forall j | 0 <= j < 8 :: acc[j] == AccumulatedLane(old(acc[j]), input, secret, j)
  {
    hide *;
    forall j | 0 <= j < 8
      ensures Partial(old(acc[j]), input, secret, 0, j) == acc[j]
      ensures Partial(old(acc[j]), input, secret, 8, j) == AccumulatedLane(old(acc[j]), input, secret, j)
    {
      PartialStep(acc[j], input, secret, 0, j);
    }
    for i := 0 to 8
      invariant forall j | 0 <= j < 8 :: acc[j] == Partial(old(acc[j]), input, secret, i, j)
    {
      forall j | 0 <= j < 8
        ensures Partial(old(acc[j]), input, secret, i + 1, j) ==
          if j == i then Add(acc[j], Product(input, secret, i))
          else if j == Neighbour(i) then Add(acc[j], ReadLE64(input, 8 * i))
          else acc[j]
      {
        PartialStep(old(acc[j]), input, secret, i, j);
      }
      ProductOfKey(input, secret, i);
      var dataVal := ReadLE64(input, 8 * i);
      var dataKey := Xor(dataVal, ReadLE64(secret, 8 * i));
      acc[Neighbour(i)] := Add(acc[Neighbour(i)], dataVal);
      acc[i] := Add(acc[i], Mult32to64(dataKey, Shift32(dataKey)));
    }
  }

  method ScrambleScalar(acc: array<bv64>, secret: seq<bv8>)
    requires acc.Length == 8 && |secret| == 64
    modifies acc
    ensures forall j | 0 <= j < 8 :: acc[j] == ScrambledLane(old(acc[j]), secret, j)
  {
    hide ReadLE64, Xor, XorShift47, TimesPrime32;
    for i := 0 to 8
      invariant forall j | 0 <= j < i :: acc[j] == ScrambledLane(old(acc[j]), secret, j)
      invariant forall j | i <= j < 8 :: acc[j] == old(acc[j])
    {
      var key64 := ReadLE64(secret, 8 * i);
      acc[i] := TimesPrime32(Xor(XorShift47(acc[i]), key64));
    }
  }

  // ----- SSE2 vectors: two 64-bit halves, or four 32-bit lanes -----

  datatype M128 = M128(lo: bv64, hi: bv64)

  function Lane32(v: M128, k: nat): bv32
    requires k < 4
  {
    match k
    case 0 => LowHalf(v.lo)
    case 1 => HighHalf(v.lo)
    case 2 => LowHalf(v.hi)
    case _ => HighHalf(v.hi)
  }

  function Load(s: seq<bv8>, at: nat): M128
    requires at + 16 <= |s|
  {
    M128(ReadLE64(s, at), ReadLE64(s, at + 8))
  }

  function XorSi128(a: M128, b: M128): M128 { M128(Xor(a.lo, b.lo), Xor(a.hi, b.hi)) }
  function AddEpi64(a: M128, b: M128): M128 { M128(Add(a.lo, b.lo), Add(a.hi, b.hi)) }

  /** _mm_shuffle_epi32 under _MM_SHUFFLE(z, y, x, w): w selects the lowest result lane. */
  function ShuffleEpi32(v: M128, z: nat, y: nat, x: nat, w: nat): M128
    requires z < 4 && y < 4 && x < 4 && w < 4
  {
    M128(Join(Lane32(v, w), Lane32(v, x)), Join(Lane32(v, y), Lane32(v, z)))
  }

  /** _mm_mul_epu32 multiplies the even lanes only. */
  function MulEpu32(a: M128, b: M128): M128 { M128(Mult32to64(a.lo, b.lo), Mult32to64(a.hi, b.hi)) }

  function SrliEpi64By47(v: M128): M128 { M128(Shift47(v.lo), Shift47(v.hi)) }
  function SlliEpi64By32(v: M128): M128 { M128(ShiftUp32(v.lo), ShiftUp32(v.hi)) }
  function Set1Epi32(x: bv32): M128 { M128(Join(x, x), Join(x, x)) }

  // ----- What the vector operations do to one half -----

  lemma {:induction false} MaskOfLow(low: bv32, high: bv32)
    ensures Mask32(Join(low, high)) == Widen(low)
  {
    assert Mask32(low as bv64 + (high as bv64 << 32)) == low as bv64;
  }

  lemma {:induction false} MaskOfHigh(x: bv64)
    ensures Mask32(Shift32(x)) == Widen(HighHalf(x))
  {
    assert Mask32(x >> 32) == Widen((x >> 32) as bv32);
  }

  lemma {:induction false} VectorAccumulate(acc: M128, data: M128, key: M128)
    ensures var dataKey := XorSi128(data, key);
      var product := MulEpu32(dataKey, ShuffleEpi32(dataKey, 0, 3, 0, 1));
      AddEpi64(product, AddEpi64(acc, ShuffleEpi32(data, 1, 0, 3, 2)))
      == M128(Add(Add(acc.lo, data.hi), Mult32to64(dataKey.lo, Shift32(dataKey.lo))),
              Add(Add(acc.hi, data.lo), Mult32to64(dataKey.hi, Shift32(dataKey.hi))))
  {
    hide Add, Xor, Times, Mask32, Shift32, Join, LowHalf, HighHalf, Widen;
    var dataKey := XorSi128(data, key);
    JoinHalves(data.lo);
    JoinHalves(data.hi);
    MaskOfLow(HighHalf(dataKey.lo), LowHalf(dataKey.lo));
    MaskOfLow(HighHalf(dataKey.hi), LowHalf(dataKey.lo));
    MaskOfHigh(dataKey.lo);
    MaskOfHigh(dataKey.hi);
    AddSwaps(Mult32to64(dataKey.lo, Shift32(dataKey.lo)), acc.lo, data.hi);
    AddSwaps(Mult32to64(dataKey.hi, Shift32(dataKey.hi)), acc.hi, data.lo);
  }

  /** One round of the vector kernel yields two lanes of the reference. */
  lemma {:induction false} VectorYieldsLanes(lo: bv64, hi: bv64, input: seq<bv8>, secret: seq<bv8>, i: nat)
    requires i < 4 && |input| == 64 && |secret| == 64
    ensures var dataKey := XorSi128(Load(input, 16 * i), Load(secret, 16 * i));
      var product := MulEpu32(dataKey, ShuffleEpi32(dataKey, 0, 3, 0, 1));
      AddEpi64(product, AddEpi64(M128(lo, hi), ShuffleEpi32(Load(input, 16 * i), 1, 0, 3, 2)))
      == M128(AccumulatedLane(lo, input, secret, 2 * i), AccumulatedLane(hi, input, secret, 2 * i + 1))
  {
    hide Add, Xor, ReadLE64, Mult32to64, Shift32, ShuffleEpi32, MulEpu32;
    VectorAccumulate(M128(lo, hi), Load(input, 16 * i), Load(secret, 16 * i));
    assert Neighbour(2 * i) == 2 * i + 1 && Neighbour(2 * i + 1) == 2 * i;
  }

  /** The vector instructions of one round. */
  method VectorRound(xacc: M128, input: seq<bv8>, secret: seq<bv8>, i: nat) returns (r: M128)
    requires i < 4 && |input| == 64 && |secret| == 64
    ensures r.lo == AccumulatedLane(xacc.lo, input, secret, 2 * i)
    ensures r.hi == AccumulatedLane(xacc.hi, input, secret, 2 * i + 1)
  {
    hide *;
    VectorYieldsLanes(xacc.lo, xacc.hi, input, secret, i);
    var dataVec := Load(input, 16 * i);
    var keyVec := Load(secret, 16 * i);
    var dataKey := XorSi128(dataVec, keyVec);
    var dataKeyLo := ShuffleEpi32(dataKey, 0, 3, 0, 1);
    var product := MulEpu32(dataKey, dataKeyLo);
    var dataSwap := ShuffleEpi32(dataVec, 1, 0, 3, 2);
    var sum := AddEpi64(xacc, dataSwap);
    r := AddEpi64(product, sum);
  }

  method AccumulateSse2(acc: array<bv64>, input: seq<bv8>, secret: seq<bv8>)
    requires acc.Length == 8 && |input| == 64 && |secret| == 64
    modifies acc
    ensures forall j | 0 <= j < 8 :: acc[j] == AccumulatedLane(old(acc[j]), input, secret, j)
  {
    hide *;
    for i := 0 to 4
      invariant forall j | 0 <= j < 2 * i :: acc[j] == AccumulatedLane(old(acc[j]), input, secret, j)
      invariant forall j | 2 * i <= j < 8 :: acc[j] == old(acc[j])
    {
      var r := VectorRound(M128(acc[2 * i], acc[2 * i + 1]), input, secret, i);
      acc[2 * i] := r.lo;
      acc[2 * i + 1] := r.hi;
    }
  }

  lemma {:induction false} HalvesAddUp(x: bv64)
    ensures Add(Mask32(x), ShiftUp32(Shift32(x))) == x
  {
    assert Add(x & 0xFFFFFFFF, (x >> 32) << 32) == x;
  }

  function Scale32(x: bv64): bv64 { x * 0x1_0000_0000 }

  lemma {:induction false} ShiftIsScale(x: bv64)
    ensures ShiftUp32(x) == Scale32(x)
  {
    assert ShiftUp32(x) == x * 0x1_0000_0000;
  }

  lemma {:induction false} ProductOfSum(a: bv64, b: bv64)
    ensures TimesPrime32(Add(a, b)) == Add(TimesPrime32(a), TimesPrime32(b))
  {
    assert TimesPrime32(a + b) == Add(a * 0x9E3779B1, b * 0x9E3779B1);
  }

  lemma {:induction false} ProductOfScaled(x: bv64)
    ensures TimesPrime32(Scale32(x)) == Scale32(TimesPrime32(x))
  {
    assert TimesPrime32(x * 0x1_0000_0000) == Scale32(x * 0x9E3779B1);
  }

  /** A 64-bit product modulo 2^64 out of two 32-bit ones. */
  lemma {:induction false} ProductOfHalves(x: bv64)
    ensures Add(TimesPrime32(Mask32(x)), ShiftUp32(TimesPrime32(Shift32(x)))) == TimesPrime32(x)
  {
    hide Add, TimesPrime32, Mask32, Shift32, ShiftUp32, Scale32;
    HalvesAddUp(x);
    ShiftIsScale(Shift32(x));
    ProductOfSum(Mask32(x), Scale32(Shift32(x)));
    ProductOfScaled(Shift32(x));
    ShiftIsScale(TimesPrime32(Shift32(x)));
  }

  lemma {:induction false} MultByPrime(x: bv64)
    ensures Mult32to64(x, Join(0x9E3779B1, 0x9E3779B1)) == TimesPrime32(Mask32(x))
  {
    assert Mask32(Join(0x9E3779B1, 0x9E3779B1)) == 0x9E3779B1;
    hide Mask32, Join;
    assert Times(Mask32(x), 0x9E3779B1) == TimesPrime32(Mask32(x));
  }

  lemma {:induction false} MaskTwice(x: bv64)
    ensures Mask32(Shift32(x)) == Shift32(x)
  {
    assert Mask32(x >> 32) == x >> 32;
  }

  lemma {:induction false} MultHighByPrime(x: bv64, other: bv32)
    ensures Mult32to64(Join(HighHalf(x), other), Join(0x9E3779B1, 0x9E3779B1)) == TimesPrime32(Shift32(x))
  {
    hide Mask32, Join, HighHalf, Widen, Shift32, Times, TimesPrime32, Mult32to64;
    MultByPrime(Join(HighHalf(x), other));
    MaskOfLow(HighHalf(x), other);
    MaskOfHigh(x);
    MaskTwice(x);
  }

  /** One round of the vector scramble yields two lanes of the reference. */
  lemma {:induction false} VectorScramble(acc: M128, key: M128)
    ensures var dataKey := XorSi128(XorSi128(acc, SrliEpi64By47(acc)), key);
      var prime := Set1Epi32(0x9E3779B1);
      AddEpi64(MulEpu32(dataKey, prime), SlliEpi64By32(MulEpu32(ShuffleEpi32(dataKey, 0, 3, 0, 1), prime)))
      == M128(TimesPrime32(Xor(XorShift47(acc.lo), key.lo)), TimesPrime32(Xor(XorShift47(acc.hi), key.hi)))
  {
    hide Add, Xor, Shift47, Mult32to64, TimesPrime32, Join, HighHalf, LowHalf, ShiftUp32, Shift32, Mask32;
    var dataKey := XorSi128(XorSi128(acc, SrliEpi64By47(acc)), key);
    MultByPrime(dataKey.lo);
    MultByPrime(dataKey.hi);
    MultHighByPrime(dataKey.lo, LowHalf(dataKey.lo));
    MultHighByPrime(dataKey.hi, LowHalf(dataKey.lo));
    ProductOfHalves(dataKey.lo);
    ProductOfHalves(dataKey.hi);
  }

  method ScrambleRound(xacc: M128, secret: seq<bv8>, i: nat) returns (r: M128)
    requires i < 4 && |secret| == 64
    ensures r.lo == ScrambledLane(xacc.lo, secret, 2 * i)
    ensures r.hi == ScrambledLane(xacc.hi, secret, 2 * i + 1)
  {
    hide Add, Xor, XorShift47, MulEpu32, TimesPrime32, ShuffleEpi32, AddEpi64, XorSi128;
    hide SrliEpi64By47, SlliEpi64By32, ReadLE64, Set1Epi32;
    var keyVec := Load(secret, 16 * i);
    VectorScramble(xacc, keyVec);
    var prime32 := Set1Epi32(0x9E3779B1);
    var shifted := SrliEpi64By47(xacc);
    var dataVec := XorSi128(xacc, shifted);
    var dataKey := XorSi128(dataVec, keyVec);
    var dataKeyHi := ShuffleEpi32(dataKey, 0, 3, 0, 1);
    var prodLo := MulEpu32(dataKey, prime32);
    var prodHi := MulEpu32(dataKeyHi, prime32);
    r := AddEpi64(prodLo, SlliEpi64By32(prodHi));
  }

  method ScrambleSse2(acc: array<bv64>, secret: seq<bv8>)
    requires acc.Length == 8 && |secret| == 64
    modifies acc
    ensures forall j | 0 <= j < 8 :: acc[j] == ScrambledLane(old(acc[j]), secret, j)
  {
    hide *;
    for i := 0 to 4
      invariant forall j | 0 <= j < 2 * i :: acc[j] == ScrambledLane(old(acc[j]), secret, j)
      invariant forall j | 2 * i <= j < 8 :: acc[j] == old(acc[j])
    {
      var r := ScrambleRound(M128(acc[2 * i], acc[2 * i + 1]), secret, i);
      acc[2 * i] := r.lo;
      acc[2 * i + 1] := r.hi;
    }
  }
}
