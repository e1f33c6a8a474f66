/** The test values that the xxHash project publishes: inputs that take every branch of XXH32
    and XXH64, and the XXH3 paths that the proxy uses, with a seed; and one connection. */
module KnownAnswers {
  import opened Machine
  import opened Xxh3Secret
  import opened Xxh3Short
  import opened XxhBlocks
  import opened ConnectionHash
  import A = Xxh32
  import B = Xxh64

  // ----- Inputs as little-endian words -----

  function Block16(a: bv32, b: bv32, c: bv32, d: bv32): (s: seq<bv8>)
    ensures |s| == 16
  {
    Bytes32(a) + Bytes32(b) + Bytes32(c) + Bytes32(d)
  }

  /** The first 14 bytes that xxHash's sanity check generates. */
  function Sanity14(): seq<bv8> {
    Bytes32(0x9b925200) + (Bytes32(0x24a332b7) + (Bytes32(0x95af002d) + ([0x0e] + ([0xec] + []))))
  }

  /** The text "Nobody inspects the spammish repetition". */
  function Nobody(): seq<bv8> {
    Block16(0x6f626f4e, 0x69207964, 0x6570736e, 0x20737463)
    + (Block16(0x20656874, 0x6d617073, 0x6873696d, 0x70657220)
       + (Bytes32(0x74697465) + ([0x69] + ([0x6f] + ([0x6e] + [])))))
  }

  lemma {:induction false} WordOf(w: bv32)
    ensures w ==
      Byte(w, 0) as bv32 | (Byte(w, 1) as bv32 << 8) | (Byte(w, 2) as bv32 << 16) | (Byte(w, 3) as bv32 << 24)
  {}

  lemma {:induction false} ReadWord(s: seq<bv8>, at: nat, w: bv32)
    requires at + 4 <= |s| && s[at..at + 4] == Bytes32(w)
    ensures ReadLE32(s, at) == w
  {
    WordOf(w);
    hide Byte;
    assert s[at] == s[at..at + 4][0] && s[at + 1] == s[at..at + 4][1];
    assert s[at + 2] == s[at..at + 4][2] && s[at + 3] == s[at..at + 4][3];
  }

  function Twice(low: bv32, high: bv32): bv64 { low as bv64 | (high as bv64 << 32) }

  lemma {:induction false} ReadsTwice(s: seq<bv8>, at: nat)
    requires at + 8 <= |s|
    ensures ReadLE64(s, at) == Twice(ReadLE32(s, at), ReadLE32(s, at + 4))
  {
    hide ReadLE32;
  }

  lemma {:induction false} ReadWords(s: seq<bv8>, at: nat, low: bv32, high: bv32)
    requires at + 8 <= |s| && s[at..at + 4] == Bytes32(low) && s[at + 4..at + 8] == Bytes32(high)
    ensures ReadLE64(s, at) == Twice(low, high)
  {
    hide ReadLE32, ReadLE64, Twice, Bytes32;
    ReadsTwice(s, at);
    ReadWord(s, at, low);
    ReadWord(s, at + 4, high);
  }

  // ----- XXH32 -----

  lemma {:induction false} Take4(h: bv32, w: bv32, rest: seq<bv8>)
    ensures A.Mix(h, Bytes32(w) + rest) == A.Mix(A.Process4(h, w), rest)
  {
    hide A.Process4, Bytes32;
    ReadWord(Bytes32(w) + rest, 0, w);
    assert (Bytes32(w) + rest)[4..] == rest;
  }

  lemma {:induction false} Take1(h: bv32, b: bv8, rest: seq<bv8>)
    requires |rest| < 3
    ensures A.Mix(h, [b] + rest) == A.Mix(A.Process1(h, b), rest)
  {
    hide A.Process1;
    assert ([b] + rest)[1..] == rest;
  }

  lemma {:induction false} Block(v: A.Lanes, a: bv32, b: bv32, c: bv32, d: bv32, rest: seq<bv8>)
    ensures Chew(A.Rounds32(), v, Block16(a, b, c, d) + rest) ==
      Chew(A.Rounds32(), A.Lanes(A.Round(v.v1, a), A.Round(v.v2, b), A.Round(v.v3, c), A.Round(v.v4, d)), rest)
  {
    hide A.Round, Bytes32;
    var block := Block16(a, b, c, d);
    ReadWord(block, 0, a);
    ReadWord(block, 4, b);
    ReadWord(block, 8, c);
    ReadWord(block, 12, d);
    assert (block + rest)[..16] == block && (block + rest)[16..] == rest;
  }

  lemma {:induction false} Xxh32Short()
    ensures A.AddCount(A.SmallStart(0), 14) == 0x165667bf
    ensures A.Process4(0x165667bf, 0x9b925200) == 0x71aa6ef1
    ensures A.Process4(0x71aa6ef1, 0x24a332b7) == 0x530fb1c9
    ensures A.Process4(0x530fb1c9, 0x95af002d) == 0x8c980fca
    ensures A.Process1(0x8c980fca, 0x0e) == 0x74a3dd0a
    ensures A.Process1(0x74a3dd0a, 0xec) == 0x283745c2
    ensures A.Avalanche(0x283745c2) == 0x1208e7e2
  {}

  lemma {:induction false} Xxh32Lanes()
    ensures A.Init(0) == A.Lanes(0x24234428, 0x85ebca77, 0, 0x61c8864f)
    ensures A.Round(0x24234428, 0x6f626f4e) == 0x46a700a && A.Round(0x85ebca77, 0x69207964) == 0xbfadf8e3
    ensures A.Round(0, 0x6570736e) == 0x5b32b4aa && A.Round(0x61c8864f, 0x20737463) == 0x137e5555
    ensures A.Round(0x46a700a, 0x20656874) == 0x719a836e && A.Round(0xbfadf8e3, 0x6d617073) == 0x514c1de8
    ensures A.Round(0x5b32b4aa, 0x6873696d) == 0x97fa4ba2 && A.Round(0x137e5555, 0x70657220) == 0x242a97a2
    ensures A.Converge(A.Lanes(0x719a836e, 0x514c1de8, 0x97fa4ba2, 0x242a97a2)) == 0x8c86b52d
  {}

  lemma {:induction false} Xxh32End()
    ensures A.AddCount(0x8c86b52d, 39) == 0x8c86b554
    ensures A.Process4(0x8c86b554, 0x74697465) == 0x9b51544
    ensures A.Process1(0x9b51544, 0x69) == 0xcdefd3c9
    ensures A.Process1(0xcdefd3c9, 0x6f) == 0x3852087b
    ensures A.Process1(0x3852087b, 0x6e) == 0xb3a7011b
    ensures A.Avalanche(0xb3a7011b) == 0xe2293b2f
  {}

  lemma {:induction false} Few(lanes: A.Lanes, s: seq<bv8>)
    requires |s| < 16
    ensures Chew(A.Rounds32(), lanes, s) == Chewed(lanes, s)
  {}

  lemma {:induction false} ShortHash(s: seq<bv8>)
    requires |s| < 16
    ensures A.Hash(s, 0) == A.Avalanche(A.Mix(A.AddCount(A.SmallStart(0), |s|), s))
  {
    Few(A.Init(0), s);
    assert Wrap32(|s|) == |s|;
    hide A.Mix, A.AddCount, A.SmallStart, A.Avalanche, A.Converge, A.Init, A.BlockRound, Chew, Wrap32;
  }

  /** Words and single bytes. */
  lemma {:induction false} Xxh32OfSanity14()
    ensures A.Hash(Sanity14(), 0) == 0x1208e7e2
  {
    Xxh32Short();
    var tail: seq<bv8> := [0x0e] + ([0xec] + []);
    ShortHash(Sanity14());
    hide A.Hash, A.Process4, A.Process1, A.Avalanche, A.AddCount, A.SmallStart, A.Mix, Bytes32;
    Take4(0x165667bf, 0x9b925200, Bytes32(0x24a332b7) + (Bytes32(0x95af002d) + tail));
    Take4(0x71aa6ef1, 0x24a332b7, Bytes32(0x95af002d) + tail);
    Take4(0x530fb1c9, 0x95af002d, tail);
    Take1(0x8c980fca, 0x0e, [0xec] + []);
    Take1(0x74a3dd0a, 0xec, []);
    A.MixNothing(0x283745c2);
  }

  /** Two blocks, a word and three bytes. */
  lemma {:induction false} Xxh32OfNobody()
    ensures A.Hash(Nobody(), 0) == 0xe2293b2f
  {
    Xxh32Lanes();
    Xxh32End();
    assert Wrap32(39) == 39;
    assert |Nobody()| == 39;
    hide A.Process4, A.Process1, A.Avalanche, A.AddCount, A.Mix, A.Init, A.Round, A.Converge;
    hide Chew, Bytes32, Block16, Wrap32, A.Rounds32;
    var tail: seq<bv8> := [0x69] + ([0x6f] + ([0x6e] + []));
    var rest := Bytes32(0x74697465) + tail;
    Block(A.Init(0), 0x6f626f4e, 0x69207964, 0x6570736e, 0x20737463,
          Block16(0x20656874, 0x6d617073, 0x6873696d, 0x70657220) + rest);
    var once := A.Lanes(0x46a700a, 0xbfadf8e3, 0x5b32b4aa, 0x137e5555);
    Block(once, 0x20656874, 0x6d617073, 0x6873696d, 0x70657220, rest);
    Few(A.Lanes(0x719a836e, 0x514c1de8, 0x97fa4ba2, 0x242a97a2), rest);
    Take4(0x8c86b554, 0x74697465, tail);
    Take1(0x9b51544, 0x69, [0x6f] + ([0x6e] + []));
    Take1(0xcdefd3c9, 0x6f, [0x6e] + []);
    Take1(0x3852087b, 0x6e, []);
    A.MixNothing(0xb3a7011b);
  }

  // ----- XXH64 -----

  lemma {:induction false} Eat8(h: bv64, low: bv32, high: bv32, rest: seq<bv8>)
    ensures B.Mix(h, Bytes32(low) + (Bytes32(high) + rest)) == B.Mix(B.Process8(h, Twice(low, high)), rest)
  {
    hide B.Process8, B.Process4, B.Process1, Bytes32, ReadLE64, Twice;
    var s := Bytes32(low) + (Bytes32(high) + rest);
    ReadWords(s, 0, low, high);
    assert s[8..] == rest;
  }

  lemma {:induction false} Eat4(h: bv64, w: bv32, rest: seq<bv8>)
    requires |rest| < 4
    ensures B.Mix(h, Bytes32(w) + rest) == B.Mix(B.Process4(h, w), rest)
  {
    hide B.Process8, B.Process4, B.Process1, Bytes32, ReadLE64;
    ReadWord(Bytes32(w) + rest, 0, w);
    assert (Bytes32(w) + rest)[4..] == rest;
  }

  lemma {:induction false} Eat1(h: bv64, b: bv8, rest: seq<bv8>)
    requires |rest| < 3
    ensures B.Mix(h, [b] + rest) == B.Mix(B.Process1(h, b), rest)
  {
    hide B.Process8, B.Process4, B.Process1, ReadLE64;
    assert ([b] + rest)[1..] == rest;
  }

  lemma {:induction false} EatNothing(h: bv64)
    ensures B.Mix(h, []) == h
  {
    hide B.Process8, B.Process4, B.Process1;
  }

  lemma {:induction false} Part(s: seq<bv8>, at: nat, t: seq<bv8>, i: nat)
    requires at + |t| <= |s| && s[at..at + |t|] == t && i + 4 <= |t|
    ensures s[at + i..at + i + 4] == t[i..i + 4]
  {
    forall k | i <= k < i + 4 ensures s[at + k] == t[k] {
      assert s[at..at + |t|][k] == s[at + k];
    }
  }

  lemma {:induction false} BlockWords(s: seq<bv8>, at: nat, a: bv32, b: bv32, c: bv32, d: bv32)
    requires at + 16 <= |s| && s[at..at + 16] == Block16(a, b, c, d)
    ensures ReadLE64(s, at) == Twice(a, b) && ReadLE64(s, at + 8) == Twice(c, d)
  {
    hide Bytes32, ReadLE64, Twice;
    var block := Block16(a, b, c, d);
    assert block[..4] == Bytes32(a) && block[4..8] == Bytes32(b);
    assert block[8..12] == Bytes32(c) && block[12..16] == Bytes32(d);
    hide Block16;
    Part(s, at, block, 0); Part(s, at, block, 4); Part(s, at, block, 8); Part(s, at, block, 12);
    ReadWords(s, at, a, b);
    ReadWords(s, at + 8, c, d);
  }

  lemma {:induction false} WideBlock(
      v: B.Lanes, a: bv32, b: bv32, c: bv32, d: bv32, e: bv32, f: bv32, g: bv32, h: bv32, rest: seq<bv8>)
    ensures Chew(B.Rounds64(), v, Block16(a, b, c, d) + (Block16(e, f, g, h) + rest)) ==
      Chew(B.Rounds64(), B.Lanes(B.Round(v.v1, Twice(a, b)), B.Round(v.v2, Twice(c, d)),
                                 B.Round(v.v3, Twice(e, f)), B.Round(v.v4, Twice(g, h))), rest)
  {
    hide B.Round, Bytes32, Block16, ReadLE64, Twice;
    var x, y := Block16(a, b, c, d), Block16(e, f, g, h);
    BlockWords(x + y, 0, a, b, c, d);
    BlockWords(x + y, 16, e, f, g, h);
    assert (x + (y + rest))[..32] == x + y && (x + (y + rest))[32..] == rest;
  }

  lemma {:induction false} Xxh64Short()
    ensures B.AddCount(B.SmallStart(0), 14) == 0x27d4eb2f165667d3
    ensures B.Process8(0x27d4eb2f165667d3, Twice(0x9b925200, 0x24a332b7)) == 0xf3ec4ce91caf389d
    ensures B.Process4(0xf3ec4ce91caf389d, 0x95af002d) == 0xb2cdc7820d3bd049
    ensures B.Process1(0xb2cdc7820d3bd049, 0x0e) == 0x921865a8e984f65d
    ensures B.Process1(0x921865a8e984f65d, 0xec) == 0x697c492dd7979e3e
    ensures XXH64Avalanche(0x697c492dd7979e3e) == 0x8282dcc4994e35c8
  {}

  lemma {:induction false} Xxh64Lanes()
    ensures B.Init(0) == B.Lanes(0x60ea27eeadc0b5d6, 0xc2b2ae3d27d4eb4f, 0, 0x61c8864e7a143579)
    ensures B.Round(0x60ea27eeadc0b5d6, Twice(0x6f626f4e, 0x69207964)) == 0x37245127a4067e4b
    ensures B.Round(0xc2b2ae3d27d4eb4f, Twice(0x6570736e, 0x20737463)) == 0x1b302b0a818f92cf
    ensures B.Round(0, Twice(0x20656874, 0x6d617073)) == 0xcd62d843d0580fca
    ensures B.Round(0x61c8864e7a143579, Twice(0x6873696d, 0x70657220)) == 0x1c16e43ef2142a4a
  {}

  lemma {:induction false} Xxh64End()
    ensures B.Converge(B.Lanes(0x37245127a4067e4b, 0x1b302b0a818f92cf, 0xcd62d843d0580fca, 0x1c16e43ef2142a4a))
      == 0x84f22c421a11a8b5
    ensures B.AddCount(0x84f22c421a11a8b5, 39) == 0x84f22c421a11a8dc
    ensures B.Process4(0x84f22c421a11a8dc, 0x74697465) == 0x9fca0f5d0aaa110f
    ensures B.Process1(0x9fca0f5d0aaa110f, 0x69) == 0x769671546f21ba14
    ensures B.Process1(0x769671546f21ba14, 0x6f) == 0xeae9b643c5f94e52
    ensures B.Process1(0xeae9b643c5f94e52, 0x6e) == 0x1d0a47483b37cc24
    ensures XXH64Avalanche(0x1d0a47483b37cc24) == 0xfbcea83c8a378bf1
  {}

  lemma {:induction false} WideFew(lanes: B.Lanes, s: seq<bv8>)
    requires |s| < 32
    ensures Chew(B.Rounds64(), lanes, s) == Chewed(lanes, s)
  {}

  lemma {:induction false} WideShortHash(s: seq<bv8>)
    requires |s| < 32
    ensures B.Hash(s, 0) == XXH64Avalanche(B.Mix(B.AddCount(B.SmallStart(0), |s|), s))
  {
    WideFew(B.Init(0), s);
    Wrap64Exact(|s|);
    hide B.Mix, B.AddCount, B.SmallStart, XXH64Avalanche, B.Converge, B.Init, B.BlockRound, Chew, Wrap64;
  }

  /** Eight bytes, a word and single bytes. */
  lemma {:induction false} Xxh64OfSanity14()
    ensures B.Hash(Sanity14(), 0) == 0x8282dcc4994e35c8
  {
    Xxh64Short();
    WideShortHash(Sanity14());
    hide B.Hash, B.Process8, B.Process4, B.Process1, XXH64Avalanche, B.AddCount, B.SmallStart, B.Mix, Bytes32, Twice;
    Eat8(0x27d4eb2f165667d3, 0x9b925200, 0x24a332b7, Bytes32(0x95af002d) + ([0x0e] + ([0xec] + [])));
    Eat4(0xf3ec4ce91caf389d, 0x95af002d, [0x0e] + ([0xec] + []));
    Eat1(0xb2cdc7820d3bd049, 0x0e, [0xec] + []);
    Eat1(0x921865a8e984f65d, 0xec, []);
    EatNothing(0x697c492dd7979e3e);
  }

  /** A block, a word and three bytes. */
  lemma {:induction false} Xxh64OfNobody()
    ensures B.Hash(Nobody(), 0) == 0xfbcea83c8a378bf1
  {
    Xxh64Lanes();
    Xxh64End();
    assert Wrap64(39) == 39;
    assert |Nobody()| == 39;
    hide B.Process4, B.Process1, XXH64Avalanche, B.AddCount, B.Mix, B.Init, B.Round, B.Converge;
    hide Chew, Bytes32, Block16, Wrap64, B.Rounds64, Twice;
    var tail: seq<bv8> := [0x69] + ([0x6f] + ([0x6e] + []));
    var rest := Bytes32(0x74697465) + tail;
    WideBlock(B.Init(0), 0x6f626f4e, 0x69207964, 0x6570736e, 0x20737463,
              0x20656874, 0x6d617073, 0x6873696d, 0x70657220, rest);
    WideFew(B.Lanes(0x37245127a4067e4b, 0x1b302b0a818f92cf, 0xcd62d843d0580fca, 0x1c16e43ef2142a4a), rest);
    Eat4(0x84f22c421a11a8dc, 0x74697465, tail);
    Eat1(0x9fca0f5d0aaa110f, 0x69, [0x6f] + ([0x6e] + []));
    Eat1(0x769671546f21ba14, 0x6f, [0x6e] + []);
    Eat1(0xeae9b643c5f94e52, 0x6e, []);
    EatNothing(0x1d0a47483b37cc24);
  }

  // ----- XXH3 on short keys -----

  lemma {:induction false} SwappedBytes(x: bv32)
    ensures Swap32(x) ==
      Byte(x, 3) as bv32 | (Byte(x, 2) as bv32 << 8) | (Byte(x, 1) as bv32 << 16) | (Byte(x, 0) as bv32 << 24)
  {}

  lemma {:induction false} WrittenHalves(w: bv64)
    ensures var s, high, low := Written(w), HighHalf(w), LowHalf(w);
      && s[0] == Byte(high, 3) && s[1] == Byte(high, 2) && s[2] == Byte(high, 1) && s[3] == Byte(high, 0)
      && s[4] == Byte(low, 3) && s[5] == Byte(low, 2) && s[6] == Byte(low, 1) && s[7] == Byte(low, 0)
  {}

  lemma {:induction false} WrittenReads(w: bv64)
    ensures ReadLE32(Written(w), 0) == Swap32(HighHalf(w)) && ReadLE32(Written(w), 4) == Swap32(LowHalf(w))
  {
    WrittenHalves(w);
    SwappedBytes(HighHalf(w));
    SwappedBytes(LowHalf(w));
    hide Written, Byte, Swap32, HighHalf, LowHalf;
  }

  lemma {:induction false} SecretReads(n: nat)
    requires n < 24
    ensures ReadLE32(KSecret(), 8 * n) == Swap32(HighHalf(K_SECRET_WORDS[n]))
    ensures ReadLE32(KSecret(), 8 * n + 4) == Swap32(LowHalf(K_SECRET_WORDS[n]))
  {
    SecretIsTable(n);
    WrittenReads(K_SECRET_WORDS[n]);
    hide *;
    var w := Written(K_SECRET_WORDS[n]);
    Part(KSecret(), 8 * n, w, 0);
    Part(KSecret(), 8 * n, w, 4);
    ReadsAgree(KSecret(), 8 * n, w, 0);
    ReadsAgree(KSecret(), 8 * n + 4, w, 4);
  }

  lemma {:induction false} HeadWords()
    ensures K_SECRET_WORDS[0] == 0xb8fe6c3923a44bbe && K_SECRET_WORDS[1] == 0x7c01812cf721ad1c
    ensures K_SECRET_WORDS[2] == 0xded46de9839097db
  {}

  lemma {:induction false} HeadSwapped()
    ensures Swap32(HighHalf(0xb8fe6c3923a44bbe)) == 0x396cfeb8 && Swap32(LowHalf(0xb8fe6c3923a44bbe)) == 0xbe4ba423
    ensures Swap32(HighHalf(0x7c01812cf721ad1c)) == 0x2c81017c && Swap32(LowHalf(0x7c01812cf721ad1c)) == 0x1cad21f7
    ensures Swap32(HighHalf(0xded46de9839097db)) == 0xe96dd4de && Swap32(LowHalf(0xded46de9839097db)) == 0xdb979083
  {}

  lemma {:induction false} SecretHead()
    ensures ReadLE32(KSecret(), 0) == 0x396cfeb8 && ReadLE32(KSecret(), 4) == 0xbe4ba423
    ensures ReadLE32(KSecret(), 8) == 0x2c81017c && ReadLE32(KSecret(), 12) == 0x1cad21f7
    ensures ReadLE32(KSecret(), 16) == 0xe96dd4de && ReadLE32(KSecret(), 20) == 0xdb979083
  {
    SecretReads(0);
    SecretReads(1);
    SecretReads(2);
    HeadWords();
    HeadSwapped();
    hide *;
  }

  lemma {:induction false} Flips()
    ensures Flip1to3(KSecret()) == 0x87275a9b
    ensures Flip4to8(KSecret()) == 0xc73ab174c5ecd5a2
  {
    SecretHead();
    ReadsTwice(KSecret(), 8);
    ReadsTwice(KSecret(), 16);
    assert Twice(0x2c81017c, 0x1cad21f7) ^ Twice(0xe96dd4de, 0xdb979083) == 0xc73ab174c5ecd5a2;
    hide ReadLE32, ReadLE64, Twice, KSecret;
  }

  /** The seed that the sanity check uses. */
  const SEED: bv64 := 0x9e3779b185ebca8d

  /** One zero byte. */
  lemma {:induction false} Xxh3OfByte()
    ensures Xxh3([0], KSecret(), SEED) == 0x032be332dd766ef8
  {
    Flips();
    assert Combined([0]) == 0x100;
    assert XXH64Avalanche(0x9e3779b20d132428) == 0x032be332dd766ef8;
    assert Xor(Widen(0x100), Add(0x87275a9b, SEED)) == 0x9e3779b20d132428;
    hide KSecret, Combined, XXH64Avalanche, Flip1to3, Xor, Widen, Add;
  }

  lemma {:induction false} SixBytes(s: seq<bv8>)
    requires s == [0, 82, 146, 155, 183, 50]
    ensures Input64(s) == 0x9b92520032b79b92
  {
    assert ReadLE32(s, 0) == 0x9b925200 && ReadLE32(s, 2) == 0x32b79b92;
    hide ReadLE32;
  }

  lemma {:induction false} SixMixed()
    ensures FoldSeed(SEED) == 0x13fd923485ebca8d
    ensures Xor(0x9b92520032b79b92, Sub(0xc73ab174c5ecd5a2, 0x13fd923485ebca8d)) == 0x28af4d4072b69087
    ensures Rrmxmx(0x28af4d4072b69087, 6) == 0x84589c116ab59ab9
  {}

  lemma {:induction false} SixLayer(s: seq<bv8>)
    requires |s| == 6
    ensures Xxh3(s, KSecret(), SEED) == Rrmxmx(Xor(Input64(s), Sub(Flip4to8(KSecret()), FoldSeed(SEED))), 6)
  {
    hide KSecret, Input64, Rrmxmx, Flip4to8, FoldSeed, Xor, Sub, Len1to3;
  }

  /** The first six bytes of the sanity check. */
  lemma {:induction false} Xxh3OfSixBytes()
    ensures Xxh3([0, 82, 146, 155, 183, 50], KSecret(), SEED) == 0x84589c116ab59ab9
  {
    Flips();
    SixMixed();
    var s: seq<bv8> := [0, 82, 146, 155, 183, 50];
    SixBytes(s);
    SixLayer(s);
    hide *;
  }

  // ----- One connection, from port 1024 of host 1 to port 80 of host 2 -----

  lemma {:induction false} ShortLayer(s: seq<bv8>, seed: bv64)
    requires 1 <= |s| <= 3
    ensures Xxh3(s, KSecret(), seed) == XXH64Avalanche(Xor(Widen(Combined(s)), Add(0x87275a9b, seed)))
  {
    Flips();
    hide KSecret, Combined, XXH64Avalanche, Flip1to3, Xor, Widen, Add, Len4to8;
  }

  lemma {:induction false} FourLayer(s: seq<bv8>, seed: bv64)
    requires |s| == 4
    ensures Xxh3(s, KSecret(), seed) == Rrmxmx(Xor(Input64(s), Sub(0xc73ab174c5ecd5a2, FoldSeed(seed))), 4)
  {
    Flips();
    hide KSecret, Input64, Rrmxmx, Flip4to8, FoldSeed, Xor, Sub, Len1to3;
  }

  lemma {:induction false} FieldWords()
    ensures Combined(Bytes16(80)) == 0x500200 && Combined(Bytes16(1024)) == 0x4000204
    ensures Input64(Bytes32(2)) == 0x0000000200000002 && Input64(Bytes32(1)) == 0x0000000100000001
    ensures Combined([7]) == 0x7070107
  {}

  lemma {:induction false} MapLayers()
    ensures XXH64Avalanche(Xor(Widen(0x500200), Add(0x87275a9b, 0x0000000000000000))) == 0x84092b8bb386cc54
    ensures XXH64Avalanche(Xor(Widen(0x4000204), Add(0x87275a9b, 0x84092b8bb386cc54))) == 0xb655f6de58ff1608
    ensures Rrmxmx(Xor(0x0000000200000002, Sub(0xc73ab174c5ecd5a2, FoldSeed(0xb655f6de58ff1608))), 4)
      == 0xa250b3fef113857e
    ensures Rrmxmx(Xor(0x0000000100000001, Sub(0xc73ab174c5ecd5a2, FoldSeed(0xa250b3fef113857e))), 4)
      == 0xa4b336b0b9ac9d33
  {}

  lemma {:induction false} CookieLayers()
    ensures XXH64Avalanche(Xor(Widen(0x500200), Add(0x87275a9b, 0x9e3779b185ebca8d))) == 0xecda642fde15052d
    ensures XXH64Avalanche(Xor(Widen(0x4000204), Add(0x87275a9b, 0xecda642fde15052d))) == 0x685c467865457942
    ensures Rrmxmx(Xor(0x0000000200000002, Sub(0xc73ab174c5ecd5a2, FoldSeed(0x685c467865457942))), 4)
      == 0x3ab48285badac439
    ensures Rrmxmx(Xor(0x0000000100000001, Sub(0xc73ab174c5ecd5a2, FoldSeed(0x3ab48285badac439))), 4)
      == 0x943e15b18cc9678d
    ensures XXH64Avalanche(Xor(Widen(0x7070107), Add(0x87275a9b, 0x943e15b18cc9678d))) == 0x103883eaccda2a3d
  {}

  /** Its hash in the connection map. */
  lemma {:induction false} MyHashOfConnection()
    ensures MyHash(Data(1, 2, 1024, 80)) == 0xa4b336b0b9ac9d33
  {
    FieldWords();
    MapLayers();
    ShortLayer(Bytes16(80), 0x0000000000000000);
    ShortLayer(Bytes16(1024), 0x84092b8bb386cc54);
    FourLayer(Bytes32(2), 0xb655f6de58ff1608);
    FourLayer(Bytes32(1), 0xa250b3fef113857e);
    hide KSecret, Combined, Input64, Bytes16, Bytes32, XXH64Avalanche, Rrmxmx, FoldSeed, Xor, Widen, Add, Sub, Xxh3;
  }

  /** Its cookie hash at timestamp 7, under that seed as the secret, before and after the cut. */
  lemma {:induction false} CookieOfConnection()
    ensures WideCookieHash(SEED, 7, Data(1, 2, 1024, 80)) == 0x103883eaccda2a3d
    ensures CookieHash(SEED, 7, Data(1, 2, 1024, 80)) == 0xccda2a3d
  {
    FieldWords();
    CookieLayers();
    ShortLayer(Bytes16(80), 0x9e3779b185ebca8d);
    ShortLayer(Bytes16(1024), 0xecda642fde15052d);
    FourLayer(Bytes32(2), 0x685c467865457942);
    FourLayer(Bytes32(1), 0x3ab48285badac439);
    ShortLayer([7], 0x943e15b18cc9678d);
    assert LowHalf(0x103883eaccda2a3d) == 0xccda2a3d;
    hide LowHalf;
    hide KSecret, Combined, Input64, Bytes16, Bytes32, XXH64Avalanche, Rrmxmx, FoldSeed, Xor, Widen, Add, Sub, Xxh3;
  }
}
