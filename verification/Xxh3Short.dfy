/** The short-key half of XXH3: its mixers and the 1-to-3 and 4-to-8 byte paths.
    Each mixing step is undone by an explicit inverse, so that for a fixed key
    each path is a permutation of the 64-bit seeds, and for a fixed seed it
    tells any two keys of 1 to 3 bytes, and any two of 4 bytes, apart. */
module Xxh3Short {
  // ----- Reading little-endian words -----

  function ReadLE32(s: seq<bv8>, at: nat): bv32
    requires at + 4 <= |s|
  {
    s[at] as bv32 | (s[at + 1] as bv32 << 8) | (s[at + 2] as bv32 << 16) | (s[at + 3] as bv32 << 24)
  }

  function ReadLE64(s: seq<bv8>, at: nat): bv64
    requires at + 8 <= |s|
  {
    ReadLE32(s, at) as bv64 | (ReadLE32(s, at + 4) as bv64 << 32)
  }

  lemma {:induction false} ReadsAgree(s: seq<bv8>, i: nat, t: seq<bv8>, j: nat)
    requires i + 4 <= |s| && j + 4 <= |t| && s[i..i + 4] == t[j..j + 4]
    ensures ReadLE32(s, i) == ReadLE32(t, j)
  {
    var a, b := s[i..i + 4], t[j..j + 4];
    assert forall k | 0 <= k < 4 :: s[i + k] == a[k] && t[j + k] == b[k];
    assert s[i] == t[j] && s[i + 1] == t[j + 1] && s[i + 2] == t[j + 2] && s[i + 3] == t[j + 3];
  }

  // ----- Mixing steps and their inverses -----

  function XorShift28(x: bv64): bv64 { x ^ (x >> 28) }
  function XorShift29(x: bv64): bv64 { x ^ (x >> 29) }
  function XorShift32(x: bv64): bv64 { x ^ (x >> 32) }
  function XorShift33(x: bv64): bv64 { x ^ (x >> 33) }
  function UnXorShift28(x: bv64): bv64 { x ^ (x >> 28) ^ (x >> 56) }
  function UnXorShift29(x: bv64): bv64 { x ^ (x >> 29) ^ (x >> 58) }

  function TimesPrime2(x: bv64): bv64 { x * 0xC2B2AE3D27D4EB4F }
  function OverPrime2(x: bv64): bv64 { x * 0x0BA79078168D4BAF }
  function TimesPrime3(x: bv64): bv64 { x * 0x165667B19E3779F9 }
  function OverPrime3(x: bv64): bv64 { x * 0xE9E9F4C41D6DF849 }
  function TimesMx(x: bv64): bv64 { x * 0x9FB21C651E98DF25 }
  function OverMx(x: bv64): bv64 { x * 0x2AB9C720D1024AD }

  function Rotl(x: bv64, r: nat): bv64
    requires r < 64
  {
    x.RotateLeft(r)
  }

  function Xor3(a: bv64, b: bv64, c: bv64): bv64 { a ^ b ^ c }

  /** The first line of rrmxmx, a linear map over GF(2) that commutes with rotation. */
  function Spread(x: bv64): bv64 { Xor3(x, Rotl(x, 49), Rotl(x, 24)) }

  function Spread2(x: bv64): bv64 { Xor3(x, Rotl(x, 34), Rotl(x, 48)) }
  function Spread4(x: bv64): bv64 { Xor3(x, Rotl(x, 4), Rotl(x, 32)) }

  /** Spread taken eight times is a rotation by 8, hence this inverse. */
  function UnSpread(x: bv64): bv64 { Spread(Spread2(Spread4(Rotl(x, 56)))) }

  /** The third line of rrmxmx. */
  function AddLength(x: bv64, len: bv64): bv64 { x ^ ((x >> 35) + len) }

  function XXH64Avalanche(h: bv64): bv64 {
    XorShift32(TimesPrime3(XorShift29(TimesPrime2(XorShift33(h)))))
  }

  function UnAvalanche(h: bv64): bv64 {
    XorShift33(OverPrime2(UnXorShift29(OverPrime3(XorShift32(h)))))
  }

  function Rrmxmx(h: bv64, len: bv64): bv64 {
    XorShift28(TimesMx(AddLength(TimesMx(Spread(h)), len)))
  }

  function UnRrmxmx(h: bv64, len: bv64): bv64 {
    UnSpread(OverMx(AddLength(OverMx(UnXorShift28(h)), len)))
  }

  lemma {:induction false} XorShiftsCancel(x: bv64)
    ensures UnXorShift28(XorShift28(x)) == x && XorShift28(UnXorShift28(x)) == x
    ensures UnXorShift29(XorShift29(x)) == x && XorShift29(UnXorShift29(x)) == x
    ensures XorShift32(XorShift32(x)) == x
    ensures XorShift33(XorShift33(x)) == x
  {
    assert UnXorShift28(x ^ (x >> 28)) == x && XorShift28(x ^ (x >> 28) ^ (x >> 56)) == x;
    assert UnXorShift29(x ^ (x >> 29)) == x && XorShift29(x ^ (x >> 29) ^ (x >> 58)) == x;
    assert XorShift32(x ^ (x >> 32)) == x && XorShift33(x ^ (x >> 33)) == x;
  }

  /** The constants are odd, so multiplying by them modulo 2^64 can be undone. */
  lemma {:induction false} ProductsCancel(x: bv64)
    ensures OverPrime2(TimesPrime2(x)) == x && TimesPrime2(OverPrime2(x)) == x
    ensures OverPrime3(TimesPrime3(x)) == x && TimesPrime3(OverPrime3(x)) == x
    ensures OverMx(TimesMx(x)) == x && TimesMx(OverMx(x)) == x
  {
    assert OverPrime2(x * 0xC2B2AE3D27D4EB4F) == x && TimesPrime2(x * 0x0BA79078168D4BAF) == x;
    assert OverPrime3(x * 0x165667B19E3779F9) == x && TimesPrime3(x * 0xE9E9F4C41D6DF849) == x;
    assert OverMx(x * 0x9FB21C651E98DF25) == x && TimesMx(x * 0x2AB9C720D1024AD) == x;
  }

  lemma {:induction false} Rotl49Xor3(a: bv64, b: bv64, c: bv64)
    ensures Rotl(Xor3(a, b, c), 49) == Xor3(Rotl(a, 49), Rotl(b, 49), Rotl(c, 49))
  {
    assert Rotl(a ^ b ^ c, 49) == Xor3(a.RotateLeft(49), b.RotateLeft(49), c.RotateLeft(49));
  }

  lemma {:induction false} Rotl24Xor3(a: bv64, b: bv64, c: bv64)
    ensures Rotl(Xor3(a, b, c), 24) == Xor3(Rotl(a, 24), Rotl(b, 24), Rotl(c, 24))
  {
    assert Rotl(a ^ b ^ c, 24) == Xor3(a.RotateLeft(24), b.RotateLeft(24), c.RotateLeft(24));
  }

  lemma {:induction false} Rotl34Xor3(a: bv64, b: bv64, c: bv64)
    ensures Rotl(Xor3(a, b, c), 34) == Xor3(Rotl(a, 34), Rotl(b, 34), Rotl(c, 34))
  {
    assert Rotl(a ^ b ^ c, 34) == Xor3(a.RotateLeft(34), b.RotateLeft(34), c.RotateLeft(34));
  }

  lemma {:induction false} Rotl48Xor3(a: bv64, b: bv64, c: bv64)
    ensures Rotl(Xor3(a, b, c), 48) == Xor3(Rotl(a, 48), Rotl(b, 48), Rotl(c, 48))
  {
    assert Rotl(a ^ b ^ c, 48) == Xor3(a.RotateLeft(48), b.RotateLeft(48), c.RotateLeft(48));
  }

  lemma {:induction false} Rotl4Xor3(a: bv64, b: bv64, c: bv64)
    ensures Rotl(Xor3(a, b, c), 4) == Xor3(Rotl(a, 4), Rotl(b, 4), Rotl(c, 4))
  {
    assert Rotl(a ^ b ^ c, 4) == Xor3(a.RotateLeft(4), b.RotateLeft(4), c.RotateLeft(4));
  }

  lemma {:induction false} Rotl32Xor3(a: bv64, b: bv64, c: bv64)
    ensures Rotl(Xor3(a, b, c), 32) == Xor3(Rotl(a, 32), Rotl(b, 32), Rotl(c, 32))
  {
    assert Rotl(a ^ b ^ c, 32) == Xor3(a.RotateLeft(32), b.RotateLeft(32), c.RotateLeft(32));
  }

  lemma {:induction false} RotlTwice(x: bv64)
    ensures Rotl(Rotl(x, 49), 49) == Rotl(x, 34) && Rotl(Rotl(x, 24), 24) == Rotl(x, 48)
    ensures Rotl(Rotl(x, 49), 24) == Rotl(x, 9) && Rotl(Rotl(x, 24), 49) == Rotl(x, 9)
    ensures Rotl(Rotl(x, 34), 34) == Rotl(x, 4) && Rotl(Rotl(x, 48), 48) == Rotl(x, 32)
    ensures Rotl(Rotl(x, 34), 48) == Rotl(x, 18) && Rotl(Rotl(x, 48), 34) == Rotl(x, 18)
    ensures Rotl(Rotl(x, 4), 4) == Rotl(x, 8) && Rotl(Rotl(x, 32), 32) == x
    ensures Rotl(Rotl(x, 4), 32) == Rotl(x, 36) && Rotl(Rotl(x, 32), 4) == Rotl(x, 36)
    ensures Rotl(Rotl(x, 8), 56) == x && Rotl(Rotl(x, 56), 8) == x
  {
    assert Rotl(x.RotateLeft(49), 49) == x.RotateLeft(34) && Rotl(x.RotateLeft(24), 24) == x.RotateLeft(48);
    assert Rotl(x.RotateLeft(49), 24) == x.RotateLeft(9) && Rotl(x.RotateLeft(24), 49) == x.RotateLeft(9);
    assert Rotl(x.RotateLeft(34), 34) == x.RotateLeft(4) && Rotl(x.RotateLeft(48), 48) == x.RotateLeft(32);
    assert Rotl(x.RotateLeft(34), 48) == x.RotateLeft(18) && Rotl(x.RotateLeft(48), 34) == x.RotateLeft(18);
    assert Rotl(x.RotateLeft(4), 4) == x.RotateLeft(8) && Rotl(x.RotateLeft(32), 32) == x;
    assert Rotl(x.RotateLeft(4), 32) == x.RotateLeft(36) && Rotl(x.RotateLeft(32), 4) == x.RotateLeft(36);
    assert Rotl(x.RotateLeft(8), 56) == x && Rotl(x.RotateLeft(56), 8) == x;
  }

  lemma {:induction false} Xor3Cancels(x: bv64, a: bv64, b: bv64, c: bv64, d: bv64, e: bv64)
    ensures Xor3(Xor3(x, a, b), Xor3(a, c, d), Xor3(b, d, e)) == Xor3(x, c, e)
  {
    assert Xor3(x ^ a ^ b, a ^ c ^ d, b ^ d ^ e) == x ^ c ^ e;
  }

  lemma {:induction false} Xor3Drops(x: bv64, a: bv64)
    ensures Xor3(x, a, x) == a
  {}

  /** Squaring Spread doubles its rotations, so its eighth power is a rotation by 8. */
  lemma {:induction false} SpreadSquares(x: bv64)
    ensures Spread(Spread(x)) == Spread2(x)
    ensures Spread2(Spread2(x)) == Spread4(x)
    ensures Spread4(Spread4(x)) == Rotl(x, 8)
  {
    hide Rotl, Xor3;
    RotlTwice(x);
    Rotl49Xor3(x, Rotl(x, 49), Rotl(x, 24)); Rotl24Xor3(x, Rotl(x, 49), Rotl(x, 24));
    Xor3Cancels(x, Rotl(x, 49), Rotl(x, 24), Rotl(x, 34), Rotl(x, 9), Rotl(x, 48));
    Rotl34Xor3(x, Rotl(x, 34), Rotl(x, 48)); Rotl48Xor3(x, Rotl(x, 34), Rotl(x, 48));
    Xor3Cancels(x, Rotl(x, 34), Rotl(x, 48), Rotl(x, 4), Rotl(x, 18), Rotl(x, 32));
    Rotl4Xor3(x, Rotl(x, 4), Rotl(x, 32)); Rotl32Xor3(x, Rotl(x, 4), Rotl(x, 32));
    Xor3Cancels(x, Rotl(x, 4), Rotl(x, 32), Rotl(x, 8), Rotl(x, 36), x);
    Xor3Drops(x, Rotl(x, 8));
  }

  lemma {:induction false} SpreadOnto(x: bv64)
    ensures Spread(UnSpread(x)) == x
  {
    hide Rotl, Spread, Spread2, Spread4;
    var r := Rotl(x, 56);
    SpreadSquares(Spread2(Spread4(r)));
    SpreadSquares(Spread4(r));
    SpreadSquares(r);
    RotlTwice(x);
  }

  lemma {:induction false} SpreadOneToOne(x: bv64)
    ensures Rotl(Spread4(Spread2(Spread(Spread(x)))), 56) == x
  {
    hide Rotl, Spread, Spread2, Spread4;
    SpreadSquares(x);
    RotlTwice(x);
  }

  lemma {:induction false} SpreadCancels(x: bv64)
    ensures UnSpread(Spread(x)) == x && Spread(UnSpread(x)) == x
  {
    hide Rotl, Spread, Spread2, Spread4;
    SpreadOnto(x);
    // A left and a right inverse of one function agree.
    SpreadOnto(Spread(x));
    SpreadOneToOne(x);
    SpreadOneToOne(UnSpread(Spread(x)));
  }

  lemma {:induction false} AddLengthCancels(x: bv64)
    ensures AddLength(AddLength(x, 4), 4) == x
  {
    assert AddLength(x ^ ((x >> 35) + 4), 4) == x;
  }

  lemma {:induction false} AvalancheCancels(h: bv64)
    ensures UnAvalanche(XXH64Avalanche(h)) == h && XXH64Avalanche(UnAvalanche(h)) == h
  {
    hide XorShift32, XorShift33, XorShift29, UnXorShift29, TimesPrime2, OverPrime2, TimesPrime3, OverPrime3;
    var a := XorShift33(h);
    var b := XorShift29(TimesPrime2(a));
    XorShiftsCancel(h); ProductsCancel(a); XorShiftsCancel(TimesPrime2(a));
    ProductsCancel(b); XorShiftsCancel(TimesPrime3(b));
    var c := OverPrime3(XorShift32(h));
    var d := OverPrime2(UnXorShift29(c));
    XorShiftsCancel(d); ProductsCancel(UnXorShift29(c)); XorShiftsCancel(c); ProductsCancel(XorShift32(h));
  }

  lemma {:induction false} RrmxmxCancels(h: bv64)
    ensures UnRrmxmx(Rrmxmx(h, 4), 4) == h && Rrmxmx(UnRrmxmx(h, 4), 4) == h
  {
    hide XorShift28, UnXorShift28, TimesMx, OverMx, AddLength, Spread, UnSpread;
    var a := TimesMx(Spread(h));
    var b := TimesMx(AddLength(a, 4));
    SpreadCancels(h); ProductsCancel(Spread(h)); AddLengthCancels(a);
    ProductsCancel(AddLength(a, 4)); XorShiftsCancel(b);
    var c := OverMx(UnXorShift28(h));
    var d := OverMx(AddLength(c, 4));
    SpreadCancels(d); ProductsCancel(AddLength(c, 4)); AddLengthCancels(c);
    ProductsCancel(UnXorShift28(h)); XorShiftsCancel(h);
  }

  // ----- The two short-key paths -----

  /** XXH3_len_1to3_64b packs the first, middle and last byte with the length. */
  function Pack(c1: bv8, c2: bv8, c3: bv8, len: bv32): bv32 {
    (c1 as bv32 << 16) | (c2 as bv32 << 24) | c3 as bv32 | (len << 8)
  }

  function Combined(input: seq<bv8>): bv32
    requires 1 <= |input| <= 3
  {
    var len: bv32 := if |input| == 1 then 1 else if |input| == 2 then 2 else 3;
    Pack(input[0], input[|input| / 2], input[|input| - 1], len)
  }

  function Xor(a: bv64, b: bv64): bv64 { a ^ b }
  function Add(a: bv64, b: bv64): bv64 { a + b }
  function Sub(a: bv64, b: bv64): bv64 { a - b }

  function Flip1to3(secret: seq<bv8>): bv64
    requires |secret| >= 136
  {
    (ReadLE32(secret, 0) ^ ReadLE32(secret, 4)) as bv64
  }

  function Widen(x: bv32): bv64 { x as bv64 }

  function Len1to3(input: seq<bv8>, secret: seq<bv8>, seed: bv64): bv64
    requires 1 <= |input| <= 3 && |secret| >= 136
  {
    XXH64Avalanche(Xor(Widen(Combined(input)), Add(Flip1to3(secret), seed)))
  }

  function Swap32(x: bv32): bv32 {
    ((x << 24) & 0xff000000) | ((x << 8) & 0x00ff0000) | ((x >> 8) & 0x0000ff00) | ((x >> 24) & 0x000000ff)
  }

  function LowHalf(x: bv64): bv32 { (x & 0xFFFFFFFF) as bv32 }
  function HighHalf(x: bv64): bv32 { (x >> 32) as bv32 }

  function Join(low: bv32, high: bv32): bv64 { low as bv64 + (high as bv64 << 32) }
  function XorHigh(x: bv64, high: bv32): bv64 { x ^ (high as bv64 << 32) }

  /** Folds the byte-swapped low half of the seed into its high half; doing it twice undoes it. */
  function FoldSeed(seed: bv64): bv64 { XorHigh(seed, Swap32(LowHalf(seed))) }

  function Input64(input: seq<bv8>): bv64
    requires 4 <= |input| <= 8
  {
    Join(ReadLE32(input, |input| - 4), ReadLE32(input, 0))
  }

  function Flip4to8(secret: seq<bv8>): bv64
    requires |secret| >= 136
  {
    ReadLE64(secret, 8) ^ ReadLE64(secret, 16)
  }

  function Len4to8(input: seq<bv8>, secret: seq<bv8>, seed: bv64): bv64
    requires 4 <= |input| <= 8 && |secret| >= 136
  {
    Rrmxmx(Xor(Input64(input), Sub(Flip4to8(secret), FoldSeed(seed))), |input| as bv64)
  }

  lemma {:induction false} XorHighKeepsLow(x: bv64, high: bv32)
    ensures LowHalf(XorHigh(x, high)) == LowHalf(x)
  {
    assert LowHalf(x ^ (high as bv64 << 32)) == (x & 0xFFFFFFFF) as bv32;
  }

  lemma {:induction false} XorHighCancels(x: bv64, high: bv32)
    ensures XorHigh(XorHigh(x, high), high) == x
  {
    assert XorHigh(x ^ (high as bv64 << 32), high) == x;
  }

  lemma {:induction false} FoldSeedCancels(seed: bv64)
    ensures FoldSeed(FoldSeed(seed)) == seed
  {
    hide Swap32, LowHalf, XorHigh;
    XorHighKeepsLow(seed, Swap32(LowHalf(seed)));
    XorHighCancels(seed, Swap32(LowHalf(seed)));
  }

  lemma {:induction false} XorsCancel(a: bv64, x: bv64)
    ensures Xor(a, Xor(a, x)) == x && Xor(Xor(a, x), x) == a
  {
    assert Xor(a, a ^ x) == x && Xor(a ^ x, x) == a;
  }

  lemma {:induction false} SumsCancel(a: bv64, x: bv64)
    ensures Add(a, Sub(x, a)) == x && Sub(Add(a, x), a) == x
  {
    assert Add(a, x - a) == x && Sub(a + x, a) == x;
  }

  lemma {:induction false} DifferencesCancel(a: bv64, x: bv64)
    ensures Sub(a, Sub(a, x)) == x
  {
    assert Sub(a, a - x) == x;
  }

  // ----- Each path permutes its seeds -----

  function SeedOf1to3(input: seq<bv8>, secret: seq<bv8>, hash: bv64): bv64
    requires 1 <= |input| <= 3 && |secret| >= 136
  {
    Sub(Xor(Widen(Combined(input)), UnAvalanche(hash)), Flip1to3(secret))
  }

  function SeedOf4(input: seq<bv8>, secret: seq<bv8>, hash: bv64): bv64
    requires |input| == 4 && |secret| >= 136
  {
    FoldSeed(Sub(Flip4to8(secret), Xor(Input64(input), UnRrmxmx(hash, 4))))
  }

  lemma {:induction false} Len1to3PermutesSeeds(input: seq<bv8>, secret: seq<bv8>, seed: bv64, hash: bv64)
    requires 1 <= |input| <= 3 && |secret| >= 136
    ensures Len1to3(input, secret, seed) == hash <==> seed == SeedOf1to3(input, secret, hash)
  {
    hide Combined, Widen, Xor, Add, Sub, Flip1to3, XXH64Avalanche, UnAvalanche;
    var word, flip := Widen(Combined(input)), Flip1to3(secret);
    XorsCancel(word, Add(flip, seed));
    SumsCancel(flip, seed);
    AvalancheCancels(Xor(word, Add(flip, seed)));
    AvalancheCancels(hash);
    XorsCancel(word, UnAvalanche(hash));
    SumsCancel(flip, Xor(word, UnAvalanche(hash)));
  }

  lemma {:induction false} Len4PermutesSeeds(input: seq<bv8>, secret: seq<bv8>, seed: bv64, hash: bv64)
    requires |input| == 4 && |secret| >= 136
    ensures Len4to8(input, secret, seed) == hash <==> seed == SeedOf4(input, secret, hash)
  {
    hide Input64, Xor, Sub, Flip4to8, Rrmxmx, UnRrmxmx, FoldSeed;
    var word, flip := Input64(input), Flip4to8(secret);
    XorsCancel(word, Sub(flip, FoldSeed(seed)));
    DifferencesCancel(flip, FoldSeed(seed));
    FoldSeedCancels(seed);
    RrmxmxCancels(Xor(word, Sub(flip, FoldSeed(seed))));
    RrmxmxCancels(hash);
    var x := Xor(word, UnRrmxmx(hash, 4));
    XorsCancel(word, UnRrmxmx(hash, 4));
    DifferencesCancel(flip, x);
    FoldSeedCancels(Sub(flip, x));
  }

  // ----- For a fixed seed, short keys never collide -----

  function Byte(w: bv32, k: nat): bv8
    requires k < 4
  {
    match k
    case 0 => (w & 0xFF) as bv8
    case 1 => ((w >> 8) & 0xFF) as bv8
    case 2 => ((w >> 16) & 0xFF) as bv8
    case _ => (w >> 24) as bv8
  }

  lemma {:induction false} PackKeepsBytes(c1: bv8, c2: bv8, c3: bv8, len: bv32)
    requires len <= 3
    ensures Byte(Pack(c1, c2, c3, len), 2) == c1
    ensures Byte(Pack(c1, c2, c3, len), 3) == c2
    ensures Byte(Pack(c1, c2, c3, len), 0) == c3
    ensures Byte(Pack(c1, c2, c3, len), 1) as bv32 == len
  {}

  function LengthByte(n: nat): bv8
    requires 1 <= n <= 3
  {
    if n == 1 then 1 else if n == 2 then 2 else 3
  }

  /** The word holds the length in its second byte, next to three bytes of the key. */
  lemma {:induction false} CombinedKeepsBytes(input: seq<bv8>)
    requires 1 <= |input| <= 3
    ensures Byte(Combined(input), 2) == input[0]
    ensures Byte(Combined(input), 3) == input[|input| / 2]
    ensures Byte(Combined(input), 0) == input[|input| - 1]
    ensures Byte(Combined(input), 1) == LengthByte(|input|)
  {
    hide Byte, Pack;
    var len: bv32 := if |input| == 1 then 1 else if |input| == 2 then 2 else 3;
    PackKeepsBytes(input[0], input[|input| / 2], input[|input| - 1], len);
  }

  lemma {:induction false} JoinKeepsHalves(low: bv32, high: bv32)
    ensures HighHalf(Join(low, high)) == high
  {}

  lemma {:induction false} JoinKeepsLow(low: bv32, high: bv32)
    ensures LowHalf(Join(low, high)) == low
  {
    assert LowHalf(low as bv64 + (high as bv64 << 32)) == low;
  }

  lemma {:induction false} JoinHalves(x: bv64)
    ensures Join(LowHalf(x), HighHalf(x)) == x
  {
    assert Join((x & 0xFFFFFFFF) as bv32, (x >> 32) as bv32) == x;
  }

  lemma {:induction false} WidenKeeps(x: bv32)
    ensures LowHalf(Widen(x)) == x
  {}

  lemma {:induction false} WordKeepsBytes(b0: bv8, b1: bv8, b2: bv8, b3: bv8)
    ensures var w := b0 as bv32 | (b1 as bv32 << 8) | (b2 as bv32 << 16) | (b3 as bv32 << 24);
      Byte(w, 0) == b0 && Byte(w, 1) == b1 && Byte(w, 2) == b2 && Byte(w, 3) == b3
  {}

  lemma {:induction false} ReadLE32KeepsBytes(s: seq<bv8>)
    requires |s| == 4
    ensures forall k | 0 <= k < 4 :: Byte(ReadLE32(s, 0), k) == s[k]
  {
    var b0, b1, b2, b3 := s[0], s[1], s[2], s[3];
    WordKeepsBytes(b0, b1, b2, b3);
    hide Byte;
  }

  /** Keys of 1 to 3 bytes never collide under one seed, whatever their lengths. */
  lemma {:induction false} Len1to3Injective(a: seq<bv8>, b: seq<bv8>, secret: seq<bv8>, seed: bv64)
    requires 1 <= |a| <= 3 && 1 <= |b| <= 3 && |secret| >= 136
    requires Len1to3(a, secret, seed) == Len1to3(b, secret, seed)
    ensures a == b
  {
    hide Xor, Add, Flip1to3, XXH64Avalanche, UnAvalanche, Combined, Byte, Widen, LowHalf;
    var key := Add(Flip1to3(secret), seed);
    AvalancheCancels(Xor(Widen(Combined(a)), key));
    AvalancheCancels(Xor(Widen(Combined(b)), key));
    XorsCancel(Widen(Combined(a)), key);
    XorsCancel(Widen(Combined(b)), key);
    WidenKeeps(Combined(a));
    WidenKeeps(Combined(b));
    CombinedKeepsBytes(a);
    CombinedKeepsBytes(b);
  }

  lemma {:induction false} Len4Injective(a: seq<bv8>, b: seq<bv8>, secret: seq<bv8>, seed: bv64)
    requires |a| == |b| == 4 && |secret| >= 136
    requires Len4to8(a, secret, seed) == Len4to8(b, secret, seed)
    ensures a == b
  {
    hide Xor, Sub, Flip4to8, Rrmxmx, UnRrmxmx, FoldSeed, ReadLE32, Join, HighHalf, Byte;
    var key := Sub(Flip4to8(secret), FoldSeed(seed));
    RrmxmxCancels(Xor(Input64(a), key));
    RrmxmxCancels(Xor(Input64(b), key));
    XorsCancel(Input64(a), key);
    XorsCancel(Input64(b), key);
    JoinKeepsHalves(ReadLE32(a, 0), ReadLE32(a, 0));
    JoinKeepsHalves(ReadLE32(b, 0), ReadLE32(b, 0));
    ReadLE32KeepsBytes(a);
    ReadLE32KeepsBytes(b);
  }
}
