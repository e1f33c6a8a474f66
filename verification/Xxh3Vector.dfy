/** XXH3 on real accumulators: the seeded secret and the long-input loop run in
    place with either kernel set, and both sets give the same hash. */
module Xxh3Vector {
  import opened Machine
  import opened Xxh3Secret
  import opened Xxh3Short
  import opened Xxh3Kernels
  import opened Xxh3Long
  import WideMultiply

  // ----- XXH3_initCustomSecret -----

  /** The eight bytes that a little-endian store of the word leaves in memory. */
  function Bytes64(x: bv64): (s: seq<bv8>)
    ensures |s| == 8
  {
    [Byte(LowHalf(x), 0), Byte(LowHalf(x), 1), Byte(LowHalf(x), 2), Byte(LowHalf(x), 3),
     Byte(HighHalf(x), 0), Byte(HighHalf(x), 1), Byte(HighHalf(x), 2), Byte(HighHalf(x), 3)]
  }

  function SecretRound(kSecret: DefaultSecret, seed: bv64, i: nat): (s: seq<bv8>)
    requires i < 12
    ensures |s| == 16
  {
    Bytes64(Add(ReadLE64(kSecret, 16 * i), seed)) + Bytes64(Sub(ReadLE64(kSecret, 16 * i + 8), seed))
  }

  /** The built-in secret with the seed added to and taken from its words in turn. */
  function CustomSecret(kSecret: DefaultSecret, seed: bv64, rounds: nat): (s: seq<bv8>)
    requires rounds <= 12
    ensures |s| == 16 * rounds
  {
    if rounds == 0 then [] else CustomSecret(kSecret, seed, rounds - 1) + SecretRound(kSecret, seed, rounds - 1)
  }

  lemma {:induction false} RoundWritten(before: seq<bv8>, after: seq<bv8>, at: nat, done: seq<bv8>, round: seq<bv8>)
    requires |before| == |after| && at + 16 <= |before| && |round| == 16
    requires before[..at] == done && after == Spliced(before, at, round)
    ensures after[..at + 16] == done + round
  {}

  lemma {:induction false} SplicedTwice(s: seq<bv8>, at: nat, a: seq<bv8>, b: seq<bv8>)
    requires at + |a| + |b| <= |s|
    ensures Spliced(Spliced(s, at, a), at + |a|, b) == Spliced(s, at, a + b)
  {}

  method InitCustomSecretScalar(customSecret: array<bv8>, kSecret: DefaultSecret, seed: bv64)
    requires customSecret.Length == 192
    modifies customSecret
    ensures customSecret[..] == CustomSecret(kSecret, seed, 12)
  {
    hide Add, Sub, ReadLE64, Bytes64, Spliced;
    for i := 0 to 12
      invariant customSecret[..16 * i] == CustomSecret(kSecret, seed, i)
    {
      ghost var before := customSecret[..];
      var lo := Add(ReadLE64(kSecret, 16 * i), seed);
      var hi := Sub(ReadLE64(kSecret, 16 * i + 8), seed);
      CopyInto(customSecret, 16 * i, Bytes64(lo));
      CopyInto(customSecret, 16 * i + 8, Bytes64(hi));
      SplicedTwice(before, 16 * i, Bytes64(lo), Bytes64(hi));
      RoundWritten(before, customSecret[..], 16 * i, CustomSecret(kSecret, seed, i), SecretRound(kSecret, seed, i));
    }
  }

  function Negate(x: bv64): bv64 { 0 - x }

  lemma {:induction false} AddNegated(a: bv64, x: bv64)
    ensures Add(a, Negate(x)) == Sub(a, x)
  {
    assert Add(a, 0 - x) == Sub(a, x);
  }

  method InitCustomSecretSse2(customSecret: array<bv8>, kSecret: DefaultSecret, seed: bv64)
    requires customSecret.Length == 192
    modifies customSecret
    ensures customSecret[..] == CustomSecret(kSecret, seed, 12)
  {
    hide Add, Sub, ReadLE64, Bytes64, Spliced, Negate;
    var seedVec := M128(seed, Negate(seed));
    for i := 0 to 12
      invariant customSecret[..16 * i] == CustomSecret(kSecret, seed, i)
    {
      ghost var before := customSecret[..];
      var v := AddEpi64(Load(kSecret, 16 * i), seedVec);
      AddNegated(ReadLE64(kSecret, 16 * i + 8), seed);
      CopyInto(customSecret, 16 * i, Bytes64(v.lo) + Bytes64(v.hi));
      RoundWritten(before, customSecret[..], 16 * i, CustomSecret(kSecret, seed, i), SecretRound(kSecret, seed, i));
    }
  }

  // ----- The lanes as one set of kernels -----

  type Lanes = s: seq<bv64> | |s| == 8 witness [0, 0, 0, 0, 0, 0, 0, 0]

  function InitAcc(): Lanes {
    [0xC2B2AE3D, 0x9E3779B185EBCA87, 0xC2B2AE3D27D4EB4F, 0x165667B19E3779F9,
     0x85EBCA77C2B2AE63, 0x85EBCA77, 0x27D4EB2F165667C5, 0x9E3779B1]
  }

  function AccumulateLanes(acc: Lanes, input: seq<bv8>, secret: seq<bv8>): Lanes {
    if |input| != 64 || |secret| != 64 then acc
    else
      var lanes := seq(8, i requires 0 <= i < 8 => AccumulatedLane(acc[i], input, secret, i));
      lanes
  }

  function ScrambleLanes(acc: Lanes, secret: seq<bv8>): Lanes {
    if |secret| != 64 then acc
    else
      var lanes := seq(8, i requires 0 <= i < 8 => ScrambledLane(acc[i], secret, i));
      lanes
  }

  function ToInt(x: bv64): (n: nat)
    ensures n < 0x1_0000_0000_0000_0000
  {
    x as int
  }

  function FromInt(n: nat): bv64
    requires n < 0x1_0000_0000_0000_0000
  {
    n as bv64
  }

  /** XXH3_mul128_fold64, on the portable product. */
  function Mul128Fold64(lhs: bv64, rhs: bv64): bv64 {
    var product := WideMultiply.Mult64to128(ToInt(lhs), ToInt(rhs));
    Xor(FromInt(product.low64), FromInt(product.high64))
  }

  function Mix2Accs(acc: Lanes, secret: seq<bv8>, i: nat): bv64
    requires i < 4 && |secret| >= 64
  {
    Mul128Fold64(Xor(acc[2 * i], ReadLE64(secret, 16 * i)), Xor(acc[2 * i + 1], ReadLE64(secret, 16 * i + 8)))
  }

  function Avalanche(h: bv64): bv64 {
    XorShift32((h ^ (h >> 37)) * 0x165667919E3779F9)
  }

  function MergeAccs(acc: Lanes, secret: seq<bv8>, start: bv64): bv64
    requires |secret| >= 64
  {
    Avalanche(Add(Add(Add(Add(start, Mix2Accs(acc, secret, 0)), Mix2Accs(acc, secret, 1)),
                      Mix2Accs(acc, secret, 2)), Mix2Accs(acc, secret, 3)))
  }

  /** The product wraps at 64 bits, and so does the length. */
  function LengthStart(len: nat): bv64 { FromInt(len % 0x1_0000_0000_0000_0000) * 0x9E3779B185EBCA87 }

  function MergeLong(acc: Lanes, secret: seq<bv8>, len: nat): bv64 {
    if |secret| < 64 then 0 else MergeAccs(acc, secret, LengthStart(len))
  }

  function SeededSecret(seed: bv64): DefaultSecret {
    CustomSecret(KSecret(), seed, 12)
  }

  /** XXH3 as it is compiled, but for the path up to 240 bytes, which stays open. */
  function LaneKernels(short: (seq<bv8>, seq<bv8>, bv64) -> bv64): Kernels<Lanes> {
    Kernels(InitAcc(), (acc, s, t) => AccumulateLanes(acc, s, t), (acc, t) => ScrambleLanes(acc, t),
            (acc, t, len) => MergeLong(acc, t, len), short, KSecret(), seed => SeededSecret(seed))
  }

  // ----- The long-input loop, in place, with either kernel set -----

  /** The kernel that the build has selected. */
  method Accumulate512(acc: array<bv64>, input: seq<bv8>, secret: seq<bv8>, vector: bool)
    requires acc.Length == 8 && |input| == 64 && |secret| == 64
    modifies acc
    ensures acc[..] == AccumulateLanes(old(acc[..]), input, secret)
  {
    hide AccumulatedLane;
    if vector {
      AccumulateSse2(acc, input, secret);
    } else {
      AccumulateScalar(acc, input, secret);
    }
  }

  method ScrambleAcc(acc: array<bv64>, secret: seq<bv8>, vector: bool)
    requires acc.Length == 8 && |secret| == 64
    modifies acc
    ensures acc[..] == ScrambleLanes(old(acc[..]), secret)
  {
    hide ScrambledLane;
    if vector {
      ScrambleSse2(acc, secret);
    } else {
      ScrambleScalar(acc, secret);
    }
  }

  /** The stripes of the data under the lane kernel, as the generic loop counts them. */
  function StripeLanes(acc: Lanes, data: seq<bv8>, secret: seq<bv8>): Lanes
    requires |data| % 64 == 0 && |data| / 64 * 8 + 56 <= |secret|
  {
    if data == [] then acc
    else
      var last := |data| / 64 - 1;
      AccumulateLanes(
        StripeLanes(acc, data[..|data| - 64], secret), data[|data| - 64..], secret[8 * last..8 * last + 64])
  }

  lemma {:induction false} StripeLanesIsAccumulated(k: Kernels<Lanes>, acc: Lanes, data: seq<bv8>, secret: seq<bv8>)
    requires forall a, s, t :: k.accumulate(a, s, t) == AccumulateLanes(a, s, t)
    requires |data| % 64 == 0 && |data| / 64 * 8 + 56 <= |secret|
    ensures StripeLanes(acc, data, secret) == Accumulated(k, acc, data, secret, 0)
  {
    hide AccumulateLanes;
    if data == [] {
    } else {
      StripeLanesIsAccumulated(k, acc, data[..|data| - 64], secret);
    }
  }

  lemma {:induction false} StripeLanesMore(acc: Lanes, input: seq<bv8>, at: nat, secret: seq<bv8>, n: nat)
    requires at + 64 * n + 64 <= |input| && 8 * n + 64 <= |secret|
    ensures StripeLanes(acc, input[at..at + 64 * n + 64], secret)
         == AccumulateLanes(StripeLanes(acc, input[at..at + 64 * n], secret),
                            input[at + 64 * n..at + 64 * n + 64], secret[8 * n..8 * n + 64])
  {
    hide AccumulateLanes;
    var more := input[at..at + 64 * n + 64];
    assert more[..|more| - 64] == input[at..at + 64 * n];
    assert more[|more| - 64..] == input[at + 64 * n..at + 64 * n + 64];
  }

  /** The lanes are those of the first n stripes. */
  ghost predicate StripesDone(acc0: Lanes, acc: seq<bv64>, input: seq<bv8>, at: nat, secret: seq<bv8>, n: nat) {
    && at + 64 * n <= |input| && 8 * n + 56 <= |secret|
    && acc == StripeLanes(acc0, input[at..at + 64 * n], secret)
  }

  lemma {:induction false} NextStripe(acc0: Lanes, acc: Lanes, input: seq<bv8>, at: nat, secret: seq<bv8>, n: nat)
    requires StripesDone(acc0, acc, input, at, secret, n) && at + 64 * n + 64 <= |input| && 8 * n + 64 <= |secret|
    ensures StripesDone(acc0, AccumulateLanes(acc, input[at + 64 * n..at + 64 * n + 64], secret[8 * n..8 * n + 64]),
                        input, at, secret, n + 1)
  {
    hide AccumulateLanes, StripeLanes;
    StripeLanesMore(acc0, input, at, secret, n);
    assert at + 64 * (n + 1) == at + 64 * n + 64;
  }

  lemma {:induction false} NoStripesDone(acc0: Lanes, input: seq<bv8>, at: nat, secret: seq<bv8>)
    requires at <= |input| && 56 <= |secret|
    ensures StripesDone(acc0, acc0, input, at, secret, 0)
  {
    hide AccumulateLanes;
    assert input[at..at] == [];
  }

  lemma {:induction false} StripesDoneMeans(
      acc0: Lanes, acc: seq<bv64>, input: seq<bv8>, at: nat, secret: seq<bv8>, n: nat)
    requires at + 64 * n <= |input| && 8 * n + 56 <= |secret|
    ensures StripesDone(acc0, acc, input, at, secret, n) <==> acc == StripeLanes(acc0, input[at..at + 64 * n], secret)
  {
    hide AccumulateLanes, StripeLanes;
  }

  method AccumulateStripe(
      acc: array<bv64>, input: seq<bv8>, at: nat, secret: seq<bv8>, n: nat, vector: bool, ghost acc0: Lanes)
    requires acc.Length == 8 && at + 64 * n + 64 <= |input| && 8 * n + 64 <= |secret|
    requires StripesDone(acc0, acc[..], input, at, secret, n)
    modifies acc
    ensures StripesDone(acc0, acc[..], input, at, secret, n + 1)
  {
    hide *;
    NextStripe(acc0, acc[..], input, at, secret, n);
    Accumulate512(acc, input[at + 64 * n..at + 64 * n + 64], secret[8 * n..8 * n + 64], vector);
  }

  method AccumulateStripes(
      acc: array<bv64>, input: seq<bv8>, at: nat, secret: seq<bv8>, nbStripes: nat, vector: bool)
    requires acc.Length == 8 && at + 64 * nbStripes <= |input| && 8 * nbStripes + 56 <= |secret|
    modifies acc
    ensures acc[..] == StripeLanes(old(acc[..]), input[at..at + 64 * nbStripes], secret)
  {
    ghost var acc0: Lanes := acc[..];
    NoStripesDone(acc0, input, at, secret);
    hide *;
    for n := 0 to nbStripes
      invariant StripesDone(acc0, acc[..], input, at, secret, n)
    {
      AccumulateStripe(acc, input, at, secret, n, vector, acc0);
    }
    StripesDoneMeans(acc0, acc[..], input, at, secret, nbStripes);
  }

  /** The kernels are those above; the short path and the secrets may be any. */
  ghost predicate OnLanes(k: Kernels<Lanes>) {
    && k.init == InitAcc()
    && (forall acc, s, t :: k.accumulate(acc, s, t) == AccumulateLanes(acc, s, t))
    && (forall acc, t :: k.scramble(acc, t) == ScrambleLanes(acc, t))
    && (forall acc, t, len :: k.merge(acc, t, len) == MergeLong(acc, t, len))
  }

  function FromStart(k: Kernels<Lanes>, secret: Secret, data: seq<bv8>): Progress<Lanes>
    requires |data| % 64 == 0
  {
    Absorb(k, secret, Progress(k.init, 0), data)
  }

  /** AbsorbNext on lanes, from the start of a block. */
  lemma {:induction false} LanesNext(k: Kernels<Lanes>, secret: Secret, before: seq<bv8>, chunk: seq<bv8>)
    requires OnLanes(k) && |before| % 64 == 0 && |chunk| % 64 == 0 && |chunk| / 64 <= StripesPerBlock(secret)
    requires 8 * (|chunk| / 64) + 56 <= |secret| && |before + chunk| % 64 == 0
    requires FromStart(k, secret, before).soFar == 0
    ensures var acc := StripeLanes(FromStart(k, secret, before).acc, chunk, secret);
      var next := FromStart(k, secret, before + chunk);
      if |chunk| / 64 < StripesPerBlock(secret) then next.acc == acc && next.soFar == |chunk| / 64
      else next.acc == ScrambleLanes(acc, secret[|secret| - 64..]) && next.soFar == 0
  {
    hide Absorb, Accumulated, StripesPerBlock, AccumulateLanes, ScrambleLanes, StripeLanes, InitAcc;
    AbsorbNext(k, secret, Progress(k.init, 0), before, chunk);
    StripeLanesIsAccumulated(k, Absorb(k, secret, Progress(k.init, 0), before).acc, chunk, secret);
  }

  lemma {:induction false} LaneKernelsOnLanes(short: (seq<bv8>, seq<bv8>, bv64) -> bv64)
    ensures OnLanes(LaneKernels(short))
  {
    hide InitAcc, AccumulateLanes, ScrambleLanes, MergeLong, KSecret, SeededSecret;
  }

  lemma {:induction false} FinalLanes(k: Kernels<Lanes>, input: seq<bv8>, secret: Secret)
    requires OnLanes(k) && |input| > 64
    ensures FinalAcc(k, input, secret) ==
      AccumulateLanes(Absorb(k, secret, Progress(k.init, 0), input[..(|input| - 1) / 64 * 64]).acc,
                      input[|input| - 64..], secret[|secret| - 71..|secret| - 7])
    ensures LongHash(k, input, secret) == MergeLong(FinalAcc(k, input, secret), secret[11..], |input|)
  {
    hide Absorb, AccumulateLanes, ScrambleLanes, MergeLong, InitAcc;
  }

  method NewAcc() returns (acc: array<bv64>)
    ensures fresh(acc) && acc.Length == 8 && acc[..] == InitAcc()
  {
    acc := new bv64[8];
    var init := InitAcc();
    hide InitAcc;
    forall i | 0 <= i < 8 { acc[i] := init[i]; }
  }

  /** The first n blocks are absorbed, each ended by a scramble. */
  ghost predicate BlocksDone(k: Kernels<Lanes>, acc: seq<bv64>, input: seq<bv8>, secret: Secret, n: nat) {
    var at := BlockStart(n, StripesPerBlock(secret));
    && at <= |input| - 1 && at % 64 == 0
    && var st := Absorb(k, secret, Progress(k.init, 0), input[..at]);
    && st.acc == acc && st.soFar == 0
  }

  method NextBlock(k: Kernels<Lanes>, acc: array<bv64>, input: seq<bv8>, secret: Secret, n: nat, vector: bool)
    requires OnLanes(k) && acc.Length == 8 && |input| > 64 && n < NbBlocks(|input| - 1, StripesPerBlock(secret))
    requires BlocksDone(k, acc[..], input, secret, n)
    modifies acc
    ensures BlocksDone(k, acc[..], input, secret, n + 1)
  {
    hide Absorb, StripesPerBlock, BlockStart, NbBlocks, OnLanes, StripeLanes, ScrambleLanes;
    var stripes := StripesPerBlock(secret);
    var at := BlockStart(n, stripes);
    NextBlockFits(|input| - 1, n, stripes);
    SplitAt(input, at, at + 64 * stripes);
    LanesNext(k, secret, input[..at], input[at..at + 64 * stripes]);
    AccumulateStripes(acc, input, at, secret, stripes, vector);
    ScrambleAcc(acc, secret[|secret| - 64..], vector);
  }

  function RestStart(input: seq<bv8>, secret: Secret): nat
    requires |input| > 64
  {
    BlockStart(NbBlocks(|input| - 1, StripesPerBlock(secret)), StripesPerBlock(secret))
  }

  function RestStripes(input: seq<bv8>, secret: Secret): nat
    requires |input| > 64
  {
    BlocksCover(|input| - 1, StripesPerBlock(secret));
    hide BlockStart, NbBlocks, StripesPerBlock;
    (|input| - 1 - RestStart(input, secret)) / 64
  }

  lemma {:induction false} WholeStripes(len: nat, at: nat, stripes: nat)
    requires at <= len < at + 64 * stripes && at % 64 == 0
    ensures at + 64 * ((len - at) / 64) == len / 64 * 64
    ensures (len - at) / 64 < stripes
  {}

  lemma {:induction false} BlocksAreStripes(n: nat, stripes: nat)
    ensures BlockStart(n, stripes) % 64 == 0
  {
    assert BlockStart(n, stripes) == 64 * (n * stripes);
  }

  lemma {:induction false} RestFits(input: seq<bv8>, secret: Secret)
    requires |input| > 64
    ensures RestStart(input, secret) + 64 * RestStripes(input, secret) == (|input| - 1) / 64 * 64
    ensures RestStripes(input, secret) < StripesPerBlock(secret) && 8 * RestStripes(input, secret) + 56 <= |secret|
    ensures var stripes := StripesPerBlock(secret);
      RestStart(input, secret) == BlockStart(NbBlocks(|input| - 1, stripes), stripes)
  {
    BlocksCover(|input| - 1, StripesPerBlock(secret));
    BlocksAreStripes(NbBlocks(|input| - 1, StripesPerBlock(secret)), StripesPerBlock(secret));
    hide BlockStart, NbBlocks, StripesPerBlock;
    WholeStripes(|input| - 1, RestStart(input, secret), StripesPerBlock(secret));
  }

  /** Past the whole blocks lie at most stripes of one block, and then the last 64 bytes. */
  lemma {:induction false} RestOfLanes(k: Kernels<Lanes>, acc: Lanes, input: seq<bv8>, secret: Secret, at: nat, n: nat)
    requires OnLanes(k) && |input| > 64
    requires at == RestStart(input, secret) && n == RestStripes(input, secret)
    requires at + 64 * n <= |input| - 1 && 8 * n + 56 <= |secret|
    requires BlocksDone(k, acc, input, secret, NbBlocks(|input| - 1, StripesPerBlock(secret)))
    ensures FinalAcc(k, input, secret) ==
         AccumulateLanes(StripeLanes(acc, input[at..at + 64 * n], secret),
                         input[|input| - 64..], secret[|secret| - 71..|secret| - 7])
  {
    hide Absorb, StripesPerBlock, NbBlocks, OnLanes, StripeLanes, FinalAcc, MergeLong, AccumulateLanes, ScrambleLanes;
    hide BlockStart, RestStart, RestStripes;
    RestFits(input, secret);
    FinalLanes(k, input, secret);
    SplitAt(input, at, at + 64 * n);
    LanesNext(k, secret, input[..at], input[at..at + 64 * n]);
  }

  /** The stripes after the last whole block, and then the last 64 bytes. */
  method FinishBlocks(k: Kernels<Lanes>, acc: array<bv64>, input: seq<bv8>, secret: Secret, vector: bool)
    requires OnLanes(k) && acc.Length == 8 && |input| > 64
    requires BlocksDone(k, acc[..], input, secret, NbBlocks(|input| - 1, StripesPerBlock(secret)))
    modifies acc
    ensures acc[..] == FinalAcc(k, input, secret)
  {
    hide *;
    RestFits(input, secret);
    var at, nbStripes := RestStart(input, secret), RestStripes(input, secret);
    RestOfLanes(k, acc[..], input, secret, at, nbStripes);
    AccumulateStripes(acc, input, at, secret, nbStripes, vector);
    Accumulate512(acc, input[|input| - 64..], secret[|secret| - 71..|secret| - 7], vector);
  }

  lemma {:induction false} NoBlocksDone(k: Kernels<Lanes>, input: seq<bv8>, secret: Secret)
    requires OnLanes(k) && |input| > 64
    ensures BlocksDone(k, InitAcc(), input, secret, 0)
  {
    hide InitAcc, StripesPerBlock, AccumulateLanes, ScrambleLanes, MergeLong;
    BlocksCover(|input| - 1, StripesPerBlock(secret));
    AbsorbNothing(k, secret, Progress(k.init, 0), input[..0]);
  }

  /** XXH3_hashLong_internal_loop in place: all eight accumulators are the same for both
      kernel sets. */
  method HashLongInternalLoop(k: Kernels<Lanes>, input: seq<bv8>, secret: Secret, vector: bool)
      returns (acc: array<bv64>)
    requires OnLanes(k) && |input| > 64
    ensures fresh(acc) && acc[..] == FinalAcc(k, input, secret)
  {
    hide *;
    acc := NewAcc();
    NoBlocksDone(k, input, secret);
    for n := 0 to NbBlocks(|input| - 1, StripesPerBlock(secret))
      invariant BlocksDone(k, acc[..], input, secret, n)
    {
      NextBlock(k, acc, input, secret, n, vector);
    }
    FinishBlocks(k, acc, input, secret, vector);
  }

  /** XXH3_hashLong_64b_internal: so the hash of a long input does not depend on them either. */
  method HashLong64(k: Kernels<Lanes>, input: seq<bv8>, secret: Secret, vector: bool) returns (h: bv64)
    requires OnLanes(k) && |input| > 64
    ensures h == LongHash(k, input, secret)
  {
    hide *;
    var acc := HashLongInternalLoop(k, input, secret, vector);
    FinalLanes(k, input, secret);
    h := MergeLong(acc[..], secret[11..], |input|);
  }

  /** XXH3_hashLong_64b_withSeed_internal, with the secret generator of the same kernel set. */
  method HashLong64WithSeed(k: Kernels<Lanes>, input: seq<bv8>, seed: bv64, vector: bool) returns (h: bv64)
    requires OnLanes(k) && |input| > 240
    requires k.kSecret == KSecret() && k.initSecret(seed) == SeededSecret(seed)
    ensures h == WithSeed(k, input, seed)
  {
    hide OnLanes, LongHash, KSecret, CustomSecret;
    if seed == 0 {
      h := HashLong64(k, input, KSecret(), vector);
    } else {
      var secret := new bv8[192];
      if vector {
        InitCustomSecretSse2(secret, KSecret(), seed);
      } else {
        InitCustomSecretScalar(secret, KSecret(), seed);
      }
      h := HashLong64(k, input, secret[..], vector);
    }
  }
}
