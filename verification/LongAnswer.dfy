/** The XXH3 hash of 256 bytes, the words 1 to 32, with the built-in secret: through three
    whole stripes, the last one and the final merge. And what a seed does to the secret. */
module LongAnswer {
  import opened Xxh3Secret
  import opened Xxh3Short
  import opened Xxh3Kernels
  import opened Xxh3Long
  import opened Xxh3Vector
  import opened KnownAnswers
  import WideMultiply

  // ----- The input -----

  function Number(n: nat): bv64 { if n == 0 then 0 else Number(n - 1) + 1 }

  function Counting(n: nat): (s: seq<bv8>)
    requires n <= 32
    ensures |s| == 8 * n
  {
    if n == 0 then [] else Counting(n - 1) + Bytes64(Number(n))
  }

  lemma {:induction false} JoinTwice(x: bv64)
    ensures Twice(LowHalf(x), HighHalf(x)) == x
  {}

  lemma {:induction false} ReadsStored(x: bv64)
    ensures ReadLE64(Bytes64(x), 0) == x
  {
    WordOf(LowHalf(x));
    WordOf(HighHalf(x));
    JoinTwice(x);
    ReadsTwice(Bytes64(x), 0);
    hide Byte, LowHalf, HighHalf, Twice, ReadLE64;
  }

  lemma {:induction false} SameWord(s: seq<bv8>, i: nat, t: seq<bv8>, j: nat)
    requires i + 8 <= |s| && j + 8 <= |t| && s[i..i + 8] == t[j..j + 8]
    ensures ReadLE64(s, i) == ReadLE64(t, j)
  {
    var a, b := s[i..i + 8], t[j..j + 8];
    assert forall k | 0 <= k < 8 :: s[i + k] == a[k] && t[j + k] == b[k];
    assert s[i..i + 4] == a[..4] && t[j..j + 4] == b[..4] && s[i + 4..i + 8] == a[4..] && t[j + 4..j + 8] == b[4..];
    ReadsAgree(s, i, t, j);
    ReadsAgree(s, i + 4, t, j + 4);
    ReadsTwice(s, i);
    ReadsTwice(t, j);
    hide ReadLE32, ReadLE64, Twice;
  }

  lemma {:induction false} ReadsJoined(a: seq<bv8>, b: seq<bv8>, i: nat)
    requires i + 8 <= |a| || (i == |a| && |b| >= 8)
    ensures ReadLE64(a + b, i) == if i + 8 <= |a| then ReadLE64(a, i) else ReadLE64(b, 0)
  {
    hide ReadLE64;
    if i + 8 <= |a| {
      assert (a + b)[i..i + 8] == a[i..i + 8];
      SameWord(a + b, i, a, i);
    } else {
      assert (a + b)[i..i + 8] == b[0..8];
      SameWord(a + b, i, b, 0);
    }
  }

  lemma {:induction false} CountingWord(n: nat, i: nat)
    requires i < n <= 32
    ensures ReadLE64(Counting(n), 8 * i) == Number(i + 1)
  {
    hide ReadLE64, Bytes64, Number;
    ReadsJoined(Counting(n - 1), Bytes64(Number(n)), 8 * i);
    if i == n - 1 {
      ReadsStored(Number(n));
    } else {
      CountingWord(n - 1, i);
    }
  }

  // ----- The words of the secret -----

  /** What a little-endian load makes of a word as the table has it. */
  function LittleWord(w: bv64): bv64 { Twice(Swap32(HighHalf(w)), Swap32(LowHalf(w))) }

  lemma {:induction false} SecretWord(n: nat)
    requires n < 24
    ensures ReadLE64(KSecret(), 8 * n) == LittleWord(K_SECRET_WORDS[n])
  {
    SecretReads(n);
    ReadsTwice(KSecret(), 8 * n);
    hide KSecret, ReadLE32, ReadLE64, Twice, Swap32, HighHalf, LowHalf, K_SECRET_WORDS;
  }

  /** A word that begins one byte, or three bytes, behind an aligned one. */
  lemma {:induction false} ReadsOneOn(s: seq<bv8>, i: nat)
    requires i + 16 <= |s|
    ensures ReadLE64(s, i + 1) == (ReadLE64(s, i) >> 8) | (ReadLE64(s, i + 8) << 56)
  {}

  lemma {:induction false} ReadsThreeOn(s: seq<bv8>, i: nat)
    requires i + 16 <= |s|
    ensures ReadLE64(s, i + 3) == (ReadLE64(s, i) >> 24) | (ReadLE64(s, i + 8) << 40)
  {}

  lemma {:induction false} Swapped0()
    ensures LittleWord(0xb8fe6c3923a44bbe) == 0xbe4ba423396cfeb8
    ensures LittleWord(0x7c01812cf721ad1c) == 0x1cad21f72c81017c
    ensures LittleWord(0xded46de9839097db) == 0xdb979083e96dd4de
    ensures LittleWord(0x7240a4a4b7b3671f) == 0x1f67b3b7a4a44072
    ensures LittleWord(0xcb79e64eccc0e578) == 0x78e5c0cc4ee679cb
    ensures LittleWord(0x825ad07dccff7221) == 0x2172ffcc7dd05a82
    ensures LittleWord(0xb8084674f743248e) == 0x8e2443f7744608b8
    ensures LittleWord(0xe03590e6813a264c) == 0x4c263a81e69035e0
  {}

  lemma {:induction false} Table0()
    ensures K_SECRET_WORDS[0] == 0xb8fe6c3923a44bbe
    ensures K_SECRET_WORDS[1] == 0x7c01812cf721ad1c
    ensures K_SECRET_WORDS[2] == 0xded46de9839097db
    ensures K_SECRET_WORDS[3] == 0x7240a4a4b7b3671f
    ensures K_SECRET_WORDS[4] == 0xcb79e64eccc0e578
    ensures K_SECRET_WORDS[5] == 0x825ad07dccff7221
    ensures K_SECRET_WORDS[6] == 0xb8084674f743248e
    ensures K_SECRET_WORDS[7] == 0xe03590e6813a264c
  {}

  lemma {:induction false} Aligned0()
    ensures ReadLE64(KSecret(), 0) == 0xbe4ba423396cfeb8
    ensures ReadLE64(KSecret(), 8) == 0x1cad21f72c81017c
    ensures ReadLE64(KSecret(), 16) == 0xdb979083e96dd4de
    ensures ReadLE64(KSecret(), 24) == 0x1f67b3b7a4a44072
    ensures ReadLE64(KSecret(), 32) == 0x78e5c0cc4ee679cb
    ensures ReadLE64(KSecret(), 40) == 0x2172ffcc7dd05a82
    ensures ReadLE64(KSecret(), 48) == 0x8e2443f7744608b8
    ensures ReadLE64(KSecret(), 56) == 0x4c263a81e69035e0
  {
    SecretWord(0); SecretWord(1); SecretWord(2); SecretWord(3); SecretWord(4);
    SecretWord(5); SecretWord(6); SecretWord(7);
    Table0();
    Swapped0();
    hide *;
  }

  lemma {:induction false} Swapped8()
    ensures LittleWord(0x3c2852bb91c300cb) == 0xcb00c391bb52283c
    ensures LittleWord(0x88d0658b1b532ea3) == 0xa32e531b8b65d088
    ensures LittleWord(0xc89f7ec9d9787364) == 0x647378d9c97e9fc8
  {}

  lemma {:induction false} Table8()
    ensures K_SECRET_WORDS[8] == 0x3c2852bb91c300cb
    ensures K_SECRET_WORDS[9] == 0x88d0658b1b532ea3
    ensures K_SECRET_WORDS[15] == 0xc89f7ec9d9787364
  {}

  lemma {:induction false} Aligned8()
    ensures ReadLE64(KSecret(), 64) == 0xcb00c391bb52283c
    ensures ReadLE64(KSecret(), 72) == 0xa32e531b8b65d088
    ensures ReadLE64(KSecret(), 120) == 0x647378d9c97e9fc8
  {
    SecretWord(8); SecretWord(9); SecretWord(15);
    Table8();
    Swapped8();
    hide *;
  }

  lemma {:induction false} Swapped16()
    ensures LittleWord(0xeac5ac8334d3ebc3) == 0xc3ebd33483acc5ea
    ensures LittleWord(0xc581a0fffa1363eb) == 0xeb6313faffa081c5
    ensures LittleWord(0x170ddd51b7f0da49) == 0x49daf0b751dd0d17
    ensures LittleWord(0xd316552629d4689e) == 0x9e68d429265516d3
    ensures LittleWord(0x2b16be587d47a1fc) == 0xfca1477d58be162b
    ensures LittleWord(0x8ff8b8d17ad031ce) == 0xce31d07ad1b8f88f
    ensures LittleWord(0x45cb3a8f95160428) == 0x280416958f3acb45
    ensures LittleWord(0xafd7fbcabb4b407e) == 0x7e404bbbcafbd7af
  {}

  lemma {:induction false} Table16()
    ensures K_SECRET_WORDS[16] == 0xeac5ac8334d3ebc3
    ensures K_SECRET_WORDS[17] == 0xc581a0fffa1363eb
    ensures K_SECRET_WORDS[18] == 0x170ddd51b7f0da49
    ensures K_SECRET_WORDS[19] == 0xd316552629d4689e
    ensures K_SECRET_WORDS[20] == 0x2b16be587d47a1fc
    ensures K_SECRET_WORDS[21] == 0x8ff8b8d17ad031ce
    ensures K_SECRET_WORDS[22] == 0x45cb3a8f95160428
    ensures K_SECRET_WORDS[23] == 0xafd7fbcabb4b407e
  {}

  lemma {:induction false} Aligned16()
    ensures ReadLE64(KSecret(), 128) == 0xc3ebd33483acc5ea
    ensures ReadLE64(KSecret(), 136) == 0xeb6313faffa081c5
    ensures ReadLE64(KSecret(), 144) == 0x49daf0b751dd0d17
    ensures ReadLE64(KSecret(), 152) == 0x9e68d429265516d3
    ensures ReadLE64(KSecret(), 160) == 0xfca1477d58be162b
    ensures ReadLE64(KSecret(), 168) == 0xce31d07ad1b8f88f
    ensures ReadLE64(KSecret(), 176) == 0x280416958f3acb45
    ensures ReadLE64(KSecret(), 184) == 0x7e404bbbcafbd7af
  {
    SecretWord(16); SecretWord(17); SecretWord(18); SecretWord(19); SecretWord(20);
    SecretWord(21); SecretWord(22); SecretWord(23);
    Table16();
    Swapped16();
    hide *;
  }

  lemma {:induction false} ShiftedByOne()
    ensures (0x647378d9c97e9fc8 >> 8) | (0xc3ebd33483acc5ea << 56) == 0xea647378d9c97e9f as bv64
    ensures (0xc3ebd33483acc5ea >> 8) | (0xeb6313faffa081c5 << 56) == 0xc5c3ebd33483acc5 as bv64
    ensures (0xeb6313faffa081c5 >> 8) | (0x49daf0b751dd0d17 << 56) == 0x17eb6313faffa081 as bv64
    ensures (0x49daf0b751dd0d17 >> 8) | (0x9e68d429265516d3 << 56) == 0xd349daf0b751dd0d as bv64
    ensures (0x9e68d429265516d3 >> 8) | (0xfca1477d58be162b << 56) == 0x2b9e68d429265516 as bv64
    ensures (0xfca1477d58be162b >> 8) | (0xce31d07ad1b8f88f << 56) == 0x8ffca1477d58be16 as bv64
    ensures (0xce31d07ad1b8f88f >> 8) | (0x280416958f3acb45 << 56) == 0x45ce31d07ad1b8f8 as bv64
    ensures (0x280416958f3acb45 >> 8) | (0x7e404bbbcafbd7af << 56) == 0xaf280416958f3acb as bv64
  {}

  lemma {:induction false} ShiftedByThree()
    ensures (0x1cad21f72c81017c >> 24) | (0xdb979083e96dd4de << 40) == 0x6dd4de1cad21f72c as bv64
    ensures (0xdb979083e96dd4de >> 24) | (0x1f67b3b7a4a44072 << 40) == 0xa44072db979083e9 as bv64
    ensures (0x1f67b3b7a4a44072 >> 24) | (0x78e5c0cc4ee679cb << 40) == 0xe679cb1f67b3b7a4 as bv64
    ensures (0x78e5c0cc4ee679cb >> 24) | (0x2172ffcc7dd05a82 << 40) == 0xd05a8278e5c0cc4e as bv64
    ensures (0x2172ffcc7dd05a82 >> 24) | (0x8e2443f7744608b8 << 40) == 0x4608b82172ffcc7d as bv64
    ensures (0x8e2443f7744608b8 >> 24) | (0x4c263a81e69035e0 << 40) == 0x9035e08e2443f774 as bv64
    ensures (0x4c263a81e69035e0 >> 24) | (0xcb00c391bb52283c << 40) == 0x52283c4c263a81e6 as bv64
    ensures (0xcb00c391bb52283c >> 24) | (0xa32e531b8b65d088 << 40) == 0x65d088cb00c391bb as bv64
  {}

  /** Under the last stripe. */
  lemma {:induction false} LastWords()
    ensures ReadLE64(KSecret(), 121) == 0xea647378d9c97e9f
    ensures ReadLE64(KSecret(), 129) == 0xc5c3ebd33483acc5
    ensures ReadLE64(KSecret(), 137) == 0x17eb6313faffa081
    ensures ReadLE64(KSecret(), 145) == 0xd349daf0b751dd0d
    ensures ReadLE64(KSecret(), 153) == 0x2b9e68d429265516
    ensures ReadLE64(KSecret(), 161) == 0x8ffca1477d58be16
    ensures ReadLE64(KSecret(), 169) == 0x45ce31d07ad1b8f8
    ensures ReadLE64(KSecret(), 177) == 0xaf280416958f3acb
  {
    ReadsOneOn(KSecret(), 120); ReadsOneOn(KSecret(), 128); ReadsOneOn(KSecret(), 136);
    ReadsOneOn(KSecret(), 144); ReadsOneOn(KSecret(), 152); ReadsOneOn(KSecret(), 160);
    ReadsOneOn(KSecret(), 168); ReadsOneOn(KSecret(), 176);
    Aligned0(); Aligned8(); Aligned16();
    ShiftedByOne();
    hide *;
  }

  /** Under the merge. */
  lemma {:induction false} MergeWords()
    ensures ReadLE64(KSecret(), 11) == 0x6dd4de1cad21f72c
    ensures ReadLE64(KSecret(), 19) == 0xa44072db979083e9
    ensures ReadLE64(KSecret(), 27) == 0xe679cb1f67b3b7a4
    ensures ReadLE64(KSecret(), 35) == 0xd05a8278e5c0cc4e
    ensures ReadLE64(KSecret(), 43) == 0x4608b82172ffcc7d
    ensures ReadLE64(KSecret(), 51) == 0x9035e08e2443f774
    ensures ReadLE64(KSecret(), 59) == 0x52283c4c263a81e6
    ensures ReadLE64(KSecret(), 67) == 0x65d088cb00c391bb
  {
    ReadsThreeOn(KSecret(), 8); ReadsThreeOn(KSecret(), 16); ReadsThreeOn(KSecret(), 24);
    ReadsThreeOn(KSecret(), 32); ReadsThreeOn(KSecret(), 40); ReadsThreeOn(KSecret(), 48);
    ReadsThreeOn(KSecret(), 56); ReadsThreeOn(KSecret(), 64);
    Aligned0(); Aligned8(); Aligned16();
    ShiftedByThree();
    hide *;
  }

  // ----- The stripes -----

  /** One lane of a stripe, from the words that it reads. */
  function WordLane(lane: bv64, other: bv64, data: bv64, key: bv64): bv64 {
    Add(Add(lane, other), Mult32to64(Xor(data, key), Shift32(Xor(data, key))))
  }

  lemma {:induction false} WordSlice(s: seq<bv8>, from: nat, i: nat)
    requires from + 64 <= |s| && i < 8
    ensures ReadLE64(s[from..from + 64], 8 * i) == ReadLE64(s, from + 8 * i)
  {
    var t := s[from..from + 64];
    forall k | 8 * i <= k < 8 * i + 8 ensures t[k] == s[from + k] {
    }
    assert t[8 * i..8 * i + 8] == s[from + 8 * i..from + 8 * i + 8];
    SameWord(s[from..from + 64], 8 * i, s, from + 8 * i);
  }

  /** Stripe j of the input, under the secret from a given byte on. */
  function StripeAt(acc: Lanes, j: nat, from: nat): Lanes
    requires j < 4 && from + 64 <= 192
  {
    AccumulateLanes(acc, Counting(32)[64 * j..64 * j + 64], KSecret()[from..from + 64])
  }

  lemma {:induction false} LaneOf(acc: Lanes, input: seq<bv8>, secret: seq<bv8>, i: nat)
    requires |input| == 64 && |secret| == 64 && i < 8
    ensures AccumulateLanes(acc, input, secret)[i] ==
      WordLane(acc[i], ReadLE64(input, 8 * Neighbour(i)), ReadLE64(input, 8 * i), ReadLE64(secret, 8 * i))
  {
    hide ReadLE64, Add, Xor, Mult32to64, Shift32, Neighbour;
  }

  lemma {:induction false} LaneOfStripe(acc: Lanes, j: nat, from: nat, i: nat)
    requires j < 4 && from + 64 <= 192 && i < 8
    ensures StripeAt(acc, j, from)[i] ==
      WordLane(acc[i], Number(8 * j + Neighbour(i) + 1), Number(8 * j + i + 1), ReadLE64(KSecret(), from + 8 * i))
  {
    hide ReadLE64, KSecret, Counting, Number, WordLane, Neighbour, AccumulateLanes;
    LaneOf(acc, Counting(32)[64 * j..64 * j + 64], KSecret()[from..from + 64], i);
    WordSlice(Counting(32), 64 * j, i);
    WordSlice(Counting(32), 64 * j, Neighbour(i));
    WordSlice(KSecret(), from, i);
    CountingWord(32, 8 * j + i);
    CountingWord(32, 8 * j + Neighbour(i));
    assert 64 * j + 8 * i == 8 * (8 * j + i) && 64 * j + 8 * Neighbour(i) == 8 * (8 * j + Neighbour(i));
  }

  lemma {:induction false} Numbers1()
    ensures Number(1) == 1 && Number(2) == 2 && Number(3) == 3 && Number(4) == 4
    ensures Number(5) == 5 && Number(6) == 6 && Number(7) == 7 && Number(8) == 8
  {}

  lemma {:induction false} Numbers9()
    ensures Number(9) == 9 && Number(10) == 10 && Number(11) == 11 && Number(12) == 12
    ensures Number(13) == 13 && Number(14) == 14 && Number(15) == 15 && Number(16) == 16
  {
    Numbers1();
  }

  lemma {:induction false} Numbers17()
    ensures Number(17) == 17 && Number(18) == 18 && Number(19) == 19 && Number(20) == 20
    ensures Number(21) == 21 && Number(22) == 22 && Number(23) == 23 && Number(24) == 24
  {
    Numbers9();
  }

  lemma {:induction false} Numbers25()
    ensures Number(25) == 25 && Number(26) == 26 && Number(27) == 27 && Number(28) == 28
    ensures Number(29) == 29 && Number(30) == 30 && Number(31) == 31 && Number(32) == 32
  {
    Numbers17();
  }

  function Lanes1(): Lanes {
    [0x2aafdcce5dfb058a, 0xa333aef0e1bb791a, 0x8aedd6e40020286a, 0x2a88fd2a622e1056,
     0xab2ea32702fc3e91, 0x1070602aa4e567ac, 0x68643cc0c70ed516, 0x44953e1a598933a0]
  }

  lemma {:induction false} Sums0()
    ensures WordLane(0x00000000c2b2ae3d, 2, 1, 0xbe4ba423396cfeb8)
      == 0x2aafdcce5dfb058a
    ensures WordLane(0x9e3779b185ebca87, 1, 2, 0x1cad21f72c81017c)
      == 0xa333aef0e1bb791a
    ensures WordLane(0xc2b2ae3d27d4eb4f, 4, 3, 0xdb979083e96dd4de)
      == 0x8aedd6e40020286a
    ensures WordLane(0x165667b19e3779f9, 3, 4, 0x1f67b3b7a4a44072)
      == 0x2a88fd2a622e1056
    ensures WordLane(0x85ebca77c2b2ae63, 6, 5, 0x78e5c0cc4ee679cb)
      == 0xab2ea32702fc3e91
    ensures WordLane(0x0000000085ebca77, 5, 6, 0x2172ffcc7dd05a82)
      == 0x1070602aa4e567ac
    ensures WordLane(0x27d4eb2f165667c5, 8, 7, 0x8e2443f7744608b8)
      == 0x68643cc0c70ed516
    ensures WordLane(0x000000009e3779b1, 7, 8, 0x4c263a81e69035e0)
      == 0x44953e1a598933a0
  {}

  lemma {:induction false} Stripe0()
    ensures StripeAt(InitAcc(), 0, 0) == Lanes1()
  {
    hide ReadLE64, KSecret, Number, WordLane, StripeAt;
    Aligned0(); Aligned8();
    assert Neighbour(0) == 1 && Neighbour(1) == 0 && Neighbour(2) == 3 && Neighbour(3) == 2;
    assert Neighbour(4) == 5 && Neighbour(5) == 4 && Neighbour(6) == 7 && Neighbour(7) == 6;
    Numbers1();
    Sums0();
    LaneOfStripe(InitAcc(), 0, 0, 0); LaneOfStripe(InitAcc(), 0, 0, 1);
    LaneOfStripe(InitAcc(), 0, 0, 2); LaneOfStripe(InitAcc(), 0, 0, 3);
    LaneOfStripe(InitAcc(), 0, 0, 4); LaneOfStripe(InitAcc(), 0, 0, 5);
    LaneOfStripe(InitAcc(), 0, 0, 6); LaneOfStripe(InitAcc(), 0, 0, 7);  }

  function Lanes2(): Lanes {
    [0x2fac120cb7b48277, 0x6b6ed79001b2a19f, 0x9f206c5d224dd9f5, 0x4fcbd5d6542f5af5,
     0xbb9f035291e6d993, 0x50ffb1b756577153, 0xacf97adc976c2895, 0xd91ff30eebab789b]
  }

  lemma {:induction false} Sums1()
    ensures WordLane(0x2aafdcce5dfb058a, 10, 9, 0x1cad21f72c81017c)
      == 0x2fac120cb7b48277
    ensures WordLane(0xa333aef0e1bb791a, 9, 10, 0xdb979083e96dd4de)
      == 0x6b6ed79001b2a19f
    ensures WordLane(0x8aedd6e40020286a, 12, 11, 0x1f67b3b7a4a44072)
      == 0x9f206c5d224dd9f5
    ensures WordLane(0x2a88fd2a622e1056, 11, 12, 0x78e5c0cc4ee679cb)
      == 0x4fcbd5d6542f5af5
    ensures WordLane(0xab2ea32702fc3e91, 14, 13, 0x2172ffcc7dd05a82)
      == 0xbb9f035291e6d993
    ensures WordLane(0x1070602aa4e567ac, 13, 14, 0x8e2443f7744608b8)
      == 0x50ffb1b756577153
    ensures WordLane(0x68643cc0c70ed516, 16, 15, 0x4c263a81e69035e0)
      == 0xacf97adc976c2895
    ensures WordLane(0x44953e1a598933a0, 15, 16, 0xcb00c391bb52283c)
      == 0xd91ff30eebab789b
  {}

  lemma {:induction false} Stripe1()
    ensures StripeAt(Lanes1(), 1, 8) == Lanes2()
  {
    hide ReadLE64, KSecret, Number, WordLane, StripeAt;
    Aligned0(); Aligned8();
    assert Neighbour(0) == 1 && Neighbour(1) == 0 && Neighbour(2) == 3 && Neighbour(3) == 2;
    assert Neighbour(4) == 5 && Neighbour(5) == 4 && Neighbour(6) == 7 && Neighbour(7) == 6;
    Numbers9();
    Sums1();
    LaneOfStripe(Lanes1(), 1, 8, 0); LaneOfStripe(Lanes1(), 1, 8, 1);
    LaneOfStripe(Lanes1(), 1, 8, 2); LaneOfStripe(Lanes1(), 1, 8, 3);
    LaneOfStripe(Lanes1(), 1, 8, 4); LaneOfStripe(Lanes1(), 1, 8, 5);
    LaneOfStripe(Lanes1(), 1, 8, 6); LaneOfStripe(Lanes1(), 1, 8, 7);  }

  function Lanes3(): Lanes {
    [0xf7e73aa78db5d876, 0x7fa16d0612bfc650, 0xc46345111b90f229, 0x603c3602cd3ef490,
     0xfc2e54da44127f94, 0x9594efd53bc05e5e, 0x41842fd05e8daa08, 0x31fb0066cbe727e2]
  }

  lemma {:induction false} Sums2()
    ensures WordLane(0x2fac120cb7b48277, 18, 17, 0xdb979083e96dd4de)
      == 0xf7e73aa78db5d876
    ensures WordLane(0x6b6ed79001b2a19f, 17, 18, 0x1f67b3b7a4a44072)
      == 0x7fa16d0612bfc650
    ensures WordLane(0x9f206c5d224dd9f5, 20, 19, 0x78e5c0cc4ee679cb)
      == 0xc46345111b90f229
    ensures WordLane(0x4fcbd5d6542f5af5, 19, 20, 0x2172ffcc7dd05a82)
      == 0x603c3602cd3ef490
    ensures WordLane(0xbb9f035291e6d993, 22, 21, 0x8e2443f7744608b8)
      == 0xfc2e54da44127f94
    ensures WordLane(0x50ffb1b756577153, 21, 22, 0x4c263a81e69035e0)
      == 0x9594efd53bc05e5e
    ensures WordLane(0xacf97adc976c2895, 24, 23, 0xcb00c391bb52283c)
      == 0x41842fd05e8daa08
    ensures WordLane(0xd91ff30eebab789b, 23, 24, 0xa32e531b8b65d088)
      == 0x31fb0066cbe727e2
  {}

  lemma {:induction false} Stripe2()
    ensures StripeAt(Lanes2(), 2, 16) == Lanes3()
  {
    hide ReadLE64, KSecret, Number, WordLane, StripeAt;
    Aligned0(); Aligned8();
    assert Neighbour(0) == 1 && Neighbour(1) == 0 && Neighbour(2) == 3 && Neighbour(3) == 2;
    assert Neighbour(4) == 5 && Neighbour(5) == 4 && Neighbour(6) == 7 && Neighbour(7) == 6;
    Numbers17();
    Sums2();
    LaneOfStripe(Lanes2(), 2, 16, 0); LaneOfStripe(Lanes2(), 2, 16, 1);
    LaneOfStripe(Lanes2(), 2, 16, 2); LaneOfStripe(Lanes2(), 2, 16, 3);
    LaneOfStripe(Lanes2(), 2, 16, 4); LaneOfStripe(Lanes2(), 2, 16, 5);
    LaneOfStripe(Lanes2(), 2, 16, 6); LaneOfStripe(Lanes2(), 2, 16, 7);  }

  function Lanes4(): Lanes {
    [0xbf4edd3f10575960, 0xa832f1ba83d4f736, 0xdbd7064adb036bb3, 0xf78992576d17ae9b,
     0x03313ba5402764ce, 0xdc15344e56c01ab3, 0x6301a34f5a3a1cd8, 0x984f4a71bcd9e433]
  }

  lemma {:induction false} Sums3()
    ensures WordLane(0xf7e73aa78db5d876, 26, 25, 0xea647378d9c97e9f)
      == 0xbf4edd3f10575960
    ensures WordLane(0x7fa16d0612bfc650, 25, 26, 0xc5c3ebd33483acc5)
      == 0xa832f1ba83d4f736
    ensures WordLane(0xc46345111b90f229, 28, 27, 0x17eb6313faffa081)
      == 0xdbd7064adb036bb3
    ensures WordLane(0x603c3602cd3ef490, 27, 28, 0xd349daf0b751dd0d)
      == 0xf78992576d17ae9b
    ensures WordLane(0xfc2e54da44127f94, 30, 29, 0x2b9e68d429265516)
      == 0x03313ba5402764ce
    ensures WordLane(0x9594efd53bc05e5e, 29, 30, 0x8ffca1477d58be16)
      == 0xdc15344e56c01ab3
    ensures WordLane(0x41842fd05e8daa08, 32, 31, 0x45ce31d07ad1b8f8)
      == 0x6301a34f5a3a1cd8
    ensures WordLane(0x31fb0066cbe727e2, 31, 32, 0xaf280416958f3acb)
      == 0x984f4a71bcd9e433
  {}

  lemma {:induction false} Stripe3()
    ensures StripeAt(Lanes3(), 3, 121) == Lanes4()
  {
    hide ReadLE64, KSecret, Number, WordLane, StripeAt;
    LastWords();
    assert Neighbour(0) == 1 && Neighbour(1) == 0 && Neighbour(2) == 3 && Neighbour(3) == 2;
    assert Neighbour(4) == 5 && Neighbour(5) == 4 && Neighbour(6) == 7 && Neighbour(7) == 6;
    Numbers25();
    Sums3();
    LaneOfStripe(Lanes3(), 3, 121, 0); LaneOfStripe(Lanes3(), 3, 121, 1);
    LaneOfStripe(Lanes3(), 3, 121, 2); LaneOfStripe(Lanes3(), 3, 121, 3);
    LaneOfStripe(Lanes3(), 3, 121, 4); LaneOfStripe(Lanes3(), 3, 121, 5);
    LaneOfStripe(Lanes3(), 3, 121, 6); LaneOfStripe(Lanes3(), 3, 121, 7);  }

  lemma {:induction false} NoStripes(data: seq<bv8>, secret: seq<bv8>)
    requires data == [] && 56 <= |secret|
    ensures StripeLanes(InitAcc(), data, secret) == InitAcc()
  {
    hide AccumulateLanes, InitAcc;
  }

  lemma {:induction false} ThreeStripes()
    ensures StripeLanes(InitAcc(), Counting(32)[0..192], KSecret()) == Lanes3()
  {
    hide Counting, KSecret, InitAcc, AccumulateLanes, StripeLanes, Lanes1, Lanes2, Lanes3;
    NoStripes(Counting(32)[0..0], KSecret());
    StripeLanesMore(InitAcc(), Counting(32), 0, KSecret(), 0);
    StripeLanesMore(InitAcc(), Counting(32), 0, KSecret(), 1);
    StripeLanesMore(InitAcc(), Counting(32), 0, KSecret(), 2);
    Stripe0();
    Stripe1();
    Stripe2();
  }

  lemma {:induction false} AbsorbedIs(k: Kernels<Lanes>, input: seq<bv8>, secret: Secret)
    requires OnLanes(k) && |input| == 256 && |secret| == 192
    ensures Absorb(k, secret, Progress(k.init, 0), input[..192]).acc == StripeLanes(InitAcc(), input[0..192], secret)
  {
    hide InitAcc, AccumulateLanes, StripeLanes, Absorb, ScrambleLanes, MergeLong;
    AbsorbNothing(k, secret, Progress(k.init, 0), []);
    assert [] + input[0..192] == input[0..192] == input[..192];
    LanesNext(k, secret, [], input[0..192]);
  }

  lemma {:induction false} FinalAccOf256(k: Kernels<Lanes>, input: seq<bv8>, secret: Secret)
    requires OnLanes(k) && |input| == 256 && |secret| == 192
    ensures FinalAcc(k, input, secret) ==
      AccumulateLanes(StripeLanes(InitAcc(), input[0..192], secret), input[192..256], secret[121..185])
  {
    hide *;
    FinalLanes(k, input, secret);
    AbsorbedIs(k, input, secret);
    assert (|input| - 1) / 64 * 64 == 192 && input[|input| - 64..] == input[192..256];
    assert secret[|secret| - 71..|secret| - 7] == secret[121..185];
  }

  /** Three whole stripes, and then the last 64 bytes. */
  lemma {:induction false} FinalAccIs(k: Kernels<Lanes>)
    requires OnLanes(k)
    ensures FinalAcc(k, Counting(32), KSecret()) == Lanes4()
  {
    hide OnLanes, FinalAcc, Counting, KSecret, InitAcc, AccumulateLanes, StripeLanes, Lanes3, Lanes4;
    FinalAccOf256(k, Counting(32), KSecret());
    ThreeStripes();
    Stripe3();
  }

  // ----- The merge -----

  lemma {:induction false} OneSplit(h: nat, l: nat, high: nat, low: nat)
    requires l < 0x1_0000_0000_0000_0000 && low < 0x1_0000_0000_0000_0000
    requires h * 0x1_0000_0000_0000_0000 + l == high * 0x1_0000_0000_0000_0000 + low
    ensures h == high && l == low
  {}

  lemma {:induction false} ProductIs(l: nat, r: nat, low: nat, high: nat)
    requires l < 0x1_0000_0000_0000_0000 && r < 0x1_0000_0000_0000_0000
    requires low < 0x1_0000_0000_0000_0000 && high < 0x1_0000_0000_0000_0000
    requires l * r == high * 0x1_0000_0000_0000_0000 + low
    ensures WideMultiply.Mult64to128(l, r).low64 == low && WideMultiply.Mult64to128(l, r).high64 == high
  {
    WideMultiply.MultiplyIsExact(l, r);
    hide WideMultiply.Mult64to128;
    var p := WideMultiply.Mult64to128(l, r);
    OneSplit(p.high64, p.low64, high, low);
  }

  /** Operands and result as numbers: a * b is high * 2^64 + low. */
  lemma {:induction false} Folded(l: bv64, r: bv64, a: nat, b: nat, low: nat, high: nat)
    requires ToInt(l) == a && ToInt(r) == b
    requires low < 0x1_0000_0000_0000_0000 && high < 0x1_0000_0000_0000_0000
    requires a * b == high * 0x1_0000_0000_0000_0000 + low
    ensures Mul128Fold64(l, r) == Xor(FromInt(low), FromInt(high))
  {
    hide WideMultiply.Mult64to128, Xor, ToInt, FromInt;
    ProductIs(a, b, low, high);
  }

  lemma {:induction false} Mixed()
    ensures Xor(0xbf4edd3f10575960, 0x6dd4de1cad21f72c) == 0xd29a0323bd76ae4c
    ensures Xor(0xa832f1ba83d4f736, 0xa44072db979083e9) == 0x0c728361144474df
    ensures Xor(0xdbd7064adb036bb3, 0xe679cb1f67b3b7a4) == 0x3daecd55bcb0dc17
    ensures Xor(0xf78992576d17ae9b, 0xd05a8278e5c0cc4e) == 0x27d3102f88d762d5
    ensures Xor(0x03313ba5402764ce, 0x4608b82172ffcc7d) == 0x4539838432d8a8b3
    ensures Xor(0xdc15344e56c01ab3, 0x9035e08e2443f774) == 0x4c20d4c07283edc7
    ensures Xor(0x6301a34f5a3a1cd8, 0x52283c4c263a81e6) == 0x31299f037c009d3e
    ensures Xor(0x984f4a71bcd9e433, 0x65d088cb00c391bb) == 0xfd9fc2babc1a7588
  {}

  lemma {:induction false} Product0()
    ensures 0xd29a0323bd76ae4c * 0x0c728361144474df
      == 0x0a3d6ccfbf6ec2d0 * 0x1_0000_0000_0000_0000 + 0x90e175ec0d8c4434
  {}

  lemma {:induction false} Operands0()
    ensures ToInt(0xd29a0323bd76ae4c) == 0xd29a0323bd76ae4c && ToInt(0x0c728361144474df) == 0x0c728361144474df
    ensures Xor(FromInt(0x90e175ec0d8c4434), FromInt(0x0a3d6ccfbf6ec2d0)) == 0x9adc1923b2e286e4
  {}

  lemma {:induction false} Fold0()
    ensures Mul128Fold64(0xd29a0323bd76ae4c, 0x0c728361144474df) == 0x9adc1923b2e286e4
  {
    hide *;
    Product0();
    Operands0();
    Folded(0xd29a0323bd76ae4c, 0x0c728361144474df, 0xd29a0323bd76ae4c, 0x0c728361144474df,
           0x90e175ec0d8c4434, 0x0a3d6ccfbf6ec2d0);
  }

  lemma {:induction false} Product1()
    ensures 0x3daecd55bcb0dc17 * 0x27d3102f88d762d5
      == 0x09987c41ae4f4889 * 0x1_0000_0000_0000_0000 + 0xd679f03fc2b8ed23
  {}

  lemma {:induction false} Operands1()
    ensures ToInt(0x3daecd55bcb0dc17) == 0x3daecd55bcb0dc17 && ToInt(0x27d3102f88d762d5) == 0x27d3102f88d762d5
    ensures Xor(FromInt(0xd679f03fc2b8ed23), FromInt(0x09987c41ae4f4889)) == 0xdfe18c7e6cf7a5aa
  {}

  lemma {:induction false} Fold1()
    ensures Mul128Fold64(0x3daecd55bcb0dc17, 0x27d3102f88d762d5) == 0xdfe18c7e6cf7a5aa
  {
    hide *;
    Product1();
    Operands1();
    Folded(0x3daecd55bcb0dc17, 0x27d3102f88d762d5, 0x3daecd55bcb0dc17, 0x27d3102f88d762d5,
           0xd679f03fc2b8ed23, 0x09987c41ae4f4889);
  }

  lemma {:induction false} Product2()
    ensures 0x4539838432d8a8b3 * 0x4c20d4c07283edc7
      == 0x1495f3c35aa213b7 * 0x1_0000_0000_0000_0000 + 0x0253e1142431da25
  {}

  lemma {:induction false} Operands2()
    ensures ToInt(0x4539838432d8a8b3) == 0x4539838432d8a8b3 && ToInt(0x4c20d4c07283edc7) == 0x4c20d4c07283edc7
    ensures Xor(FromInt(0x0253e1142431da25), FromInt(0x1495f3c35aa213b7)) == 0x16c612d77e93c992
  {}

  lemma {:induction false} Fold2()
    ensures Mul128Fold64(0x4539838432d8a8b3, 0x4c20d4c07283edc7) == 0x16c612d77e93c992
  {
    hide *;
    Product2();
    Operands2();
    Folded(0x4539838432d8a8b3, 0x4c20d4c07283edc7, 0x4539838432d8a8b3, 0x4c20d4c07283edc7,
           0x0253e1142431da25, 0x1495f3c35aa213b7);
  }

  lemma {:induction false} Product3()
    ensures 0x31299f037c009d3e * 0xfd9fc2babc1a7588
      == 0x30b4d0659b9471db * 0x1_0000_0000_0000_0000 + 0x5851581ba87cdef0
  {}

  lemma {:induction false} Operands3()
    ensures ToInt(0x31299f037c009d3e) == 0x31299f037c009d3e && ToInt(0xfd9fc2babc1a7588) == 0xfd9fc2babc1a7588
    ensures Xor(FromInt(0x5851581ba87cdef0), FromInt(0x30b4d0659b9471db)) == 0x68e5887e33e8af2b
  {}

  lemma {:induction false} Fold3()
    ensures Mul128Fold64(0x31299f037c009d3e, 0xfd9fc2babc1a7588) == 0x68e5887e33e8af2b
  {
    hide *;
    Product3();
    Operands3();
    Folded(0x31299f037c009d3e, 0xfd9fc2babc1a7588, 0x31299f037c009d3e, 0xfd9fc2babc1a7588,
           0x5851581ba87cdef0, 0x30b4d0659b9471db);
  }

  lemma {:induction false} Total()
    ensures Add(0x3779b185ebca8700, 0x9adc1923b2e286e4) == 0xd255caa99ead0de4
    ensures Add(0xd255caa99ead0de4, 0xdfe18c7e6cf7a5aa) == 0xb23757280ba4b38e
    ensures Add(0xb23757280ba4b38e, 0x16c612d77e93c992) == 0xc8fd69ff8a387d20
    ensures Add(0xc8fd69ff8a387d20, 0x68e5887e33e8af2b) == 0x31e2f27dbe212c4b
    ensures Avalanche(0x31e2f27dbe212c4b) == 0xd600d09e20299d86
  {}

  lemma {:induction false} StartIs()
    ensures LengthStart(256) == 0x3779b185ebca8700
  {
    assert 256 % 0x1_0000_0000_0000_0000 == 256 && FromInt(256) == 256;
    hide FromInt;
  }

  lemma {:induction false} MergeSlice(i: nat)
    requires i < 8
    ensures ReadLE64(KSecret()[11..], 8 * i) == ReadLE64(KSecret(), 11 + 8 * i)
  {
    hide KSecret, ReadLE64;
    assert KSecret()[11..][8 * i..8 * i + 8] == KSecret()[11 + 8 * i..11 + 8 * i + 8];
    SameWord(KSecret()[11..], 8 * i, KSecret(), 11 + 8 * i);
  }

  lemma {:induction false} MergedPairs()
    ensures Mix2Accs(Lanes4(), KSecret()[11..], 0) == 0x9adc1923b2e286e4
    ensures Mix2Accs(Lanes4(), KSecret()[11..], 1) == 0xdfe18c7e6cf7a5aa
    ensures Mix2Accs(Lanes4(), KSecret()[11..], 2) == 0x16c612d77e93c992
    ensures Mix2Accs(Lanes4(), KSecret()[11..], 3) == 0x68e5887e33e8af2b
  {
    hide KSecret, ReadLE64, Xor, Mul128Fold64;
    MergeSlice(0); MergeSlice(1); MergeSlice(2); MergeSlice(3);
    MergeSlice(4); MergeSlice(5); MergeSlice(6); MergeSlice(7);
    MergeWords();
    Mixed();
    Fold0();
    Fold1();
    Fold2();
    Fold3();
  }

  lemma {:induction false} MergedIs(k: Kernels<Lanes>)
    requires OnLanes(k)
    ensures LongHash(k, Counting(32), KSecret()) == MergeLong(Lanes4(), KSecret()[11..], 256)
  {
    hide *;
    FinalAccIs(k);
    FinalLanes(k, Counting(32), KSecret());
  }

  /** The hash, for any short path and any seeded secrets. */
  lemma {:induction false} LongHashOfCounting(k: Kernels<Lanes>)
    requires OnLanes(k)
    ensures LongHash(k, Counting(32), KSecret()) == 0xd600d09e20299d86
  {
    hide OnLanes, LongHash, Counting, KSecret, Lanes4, Mix2Accs, Add, Avalanche, LengthStart;
    MergedIs(k);
    MergedPairs();
    StartIs();
    Total();
  }

  // ----- Secrets made from a seed -----

  /** The seed is added to the even words of the secret and taken from the odd ones. */
  lemma {:induction false} SeededWords(kSecret: DefaultSecret, seed: bv64, n: nat, i: nat)
    requires i < n <= 12
    ensures ReadLE64(CustomSecret(kSecret, seed, n), 16 * i) == Add(ReadLE64(kSecret, 16 * i), seed)
    ensures ReadLE64(CustomSecret(kSecret, seed, n), 16 * i + 8) == Sub(ReadLE64(kSecret, 16 * i + 8), seed)
  {
    hide ReadLE64, Bytes64, Add, Sub;
    var before := CustomSecret(kSecret, seed, n - 1);
    var plus := Add(ReadLE64(kSecret, 16 * (n - 1)), seed);
    var minus := Sub(ReadLE64(kSecret, 16 * (n - 1) + 8), seed);
    ReadsJoined(before, Bytes64(plus) + Bytes64(minus), 16 * i);
    if i < n - 1 {
      ReadsJoined(before, Bytes64(plus) + Bytes64(minus), 16 * i + 8);
      SeededWords(kSecret, seed, n - 1, i);
    } else {
      ReadsJoined(Bytes64(plus), Bytes64(minus), 0);
      ReadsJoined(before + Bytes64(plus), Bytes64(minus), 16 * i + 8);
      assert before + Bytes64(plus) + Bytes64(minus) == before + (Bytes64(plus) + Bytes64(minus));
      ReadsStored(plus);
      ReadsStored(minus);
    }
  }
}
