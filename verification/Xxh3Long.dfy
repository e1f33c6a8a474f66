/** The long-input half of XXH3 (more than 240 bytes), for arbitrary kernels: a
    stripe accumulator, a scrambler and a final merge, passed as values just as
    the code passes them as function pointers. */
module Xxh3Long {
  import opened Xxh3Secret

  /** What is configured at compile time. The short path, which is taken up to 240
      bytes, and the seeded secret generator are as arbitrary as the kernels. */
  datatype Kernels<!Acc> = Kernels(
    init: Acc,
    accumulate: (Acc, seq<bv8>, seq<bv8>) -> Acc,
    scramble: (Acc, seq<bv8>) -> Acc,
    merge: (Acc, seq<bv8>, nat) -> bv64,
    short: (seq<bv8>, seq<bv8>, bv64) -> bv64,
    kSecret: DefaultSecret,
    initSecret: bv64 -> DefaultSecret)

  /** Accumulators together with the number of stripes taken in the current block. */
  datatype Progress<Acc> = Progress(acc: Acc, soFar: nat)

  function StripesPerBlock(secret: Secret): (b: nat)
    ensures 9 <= b && 8 * b + 64 <= |secret|
  {
    (|secret| - 64) / 8
  }

  /** One stripe: accumulate under the sliding secret, scramble at the end of a block. */
  function Step<Acc>(k: Kernels<Acc>, secret: Secret, st: Progress<Acc>, stripe: seq<bv8>): (r: Progress<Acc>)
    requires st.soFar < StripesPerBlock(secret)
    ensures r.soFar < StripesPerBlock(secret)
  {
    var acc := k.accumulate(st.acc, stripe, secret[8 * st.soFar..8 * st.soFar + 64]);
    if st.soFar + 1 == StripesPerBlock(secret) then Progress(k.scramble(acc, secret[|secret| - 64..]), 0)
    else Progress(acc, st.soFar + 1)
  }

  /** All stripes of the data, in order. This is the reference that every loop below refines. */
  function Absorb<Acc>(k: Kernels<Acc>, secret: Secret, st: Progress<Acc>, data: seq<bv8>): (r: Progress<Acc>)
    requires |data| % 64 == 0 && st.soFar < StripesPerBlock(secret)
    ensures r.soFar < StripesPerBlock(secret)
  {
    if data == [] then st
    else Step(k, secret, Absorb(k, secret, st, data[..|data| - 64]), data[|data| - 64..])
  }

  /** The accumulators of a long input: every whole stripe before the last byte, then the
      last 64 bytes once more under their own part of the secret. */
  function FinalAcc<Acc>(k: Kernels<Acc>, input: seq<bv8>, secret: Secret): Acc
    requires |input| > 64
  {
    var stripes := Absorb(k, secret, Progress(k.init, 0), input[..(|input| - 1) / 64 * 64]);
    k.accumulate(stripes.acc, input[|input| - 64..], secret[|secret| - 71..|secret| - 7])
  }

  /** The hash of a long input. */
  function LongHash<Acc>(k: Kernels<Acc>, input: seq<bv8>, secret: Secret): bv64
    requires |input| > 64
  {
    k.merge(FinalAcc(k, input, secret), secret[11..], |input|)
  }

  /** XXH3_64bits_withSecret */
  function WithSecret<Acc>(k: Kernels<Acc>, input: seq<bv8>, secret: Secret): bv64 {
    if |input| <= 240 then k.short(input, secret, 0) else LongHash(k, input, secret)
  }

  /** XXH3_64bits_withSeed */
  function WithSeed<Acc>(k: Kernels<Acc>, input: seq<bv8>, seed: bv64): bv64 {
    if |input| <= 240 then k.short(input, k.kSecret, seed)
    else if seed == 0 then LongHash(k, input, k.kSecret)
    else LongHash(k, input, k.initSecret(seed))
  }

  lemma {:induction false} AbsorbConcat<Acc>(
      k: Kernels<Acc>, secret: Secret, st: Progress<Acc>, a: seq<bv8>, b: seq<bv8>)
    requires |a| % 64 == 0 && |b| % 64 == 0 && st.soFar < StripesPerBlock(secret)
    ensures Absorb(k, secret, st, a + b) == Absorb(k, secret, Absorb(k, secret, st, a), b)
  {
    if b == [] {
      assert a + b == a;
    } else {
      AbsorbConcat(k, secret, st, a, b[..|b| - 64]);
      assert (a + b)[..|a + b| - 64] == a + b[..|b| - 64];
      assert (a + b)[|a + b| - 64..] == b[|b| - 64..];
    }
  }

  // ----- The accumulate loop, which knows nothing of blocks -----

  /** The stripes of the data under the secret that starts s stripes in. */
  function Accumulated<Acc>(k: Kernels<Acc>, acc: Acc, data: seq<bv8>, secret: seq<bv8>, s: nat): Acc
    requires |data| % 64 == 0 && 8 * (s + |data| / 64) + 56 <= |secret|
  {
    if data == [] then acc
    else
      var last := s + |data| / 64 - 1;
      k.accumulate(
        Accumulated(k, acc, data[..|data| - 64], secret, s), data[|data| - 64..], secret[8 * last..8 * last + 64])
  }

  lemma {:induction false} AccumulatedMore<Acc>(
      k: Kernels<Acc>, acc: Acc, input: seq<bv8>, at: nat, secret: seq<bv8>, s: nat, n: nat)
    requires at + 64 * n + 64 <= |input| && 8 * (s + n) + 64 <= |secret|
    ensures Accumulated(k, acc, input[at..at + 64 * n + 64], secret, s)
         == k.accumulate(Accumulated(k, acc, input[at..at + 64 * n], secret, s),
                         input[at + 64 * n..at + 64 * n + 64], secret[8 * (s + n)..8 * (s + n) + 64])
  {
    var more := input[at..at + 64 * n + 64];
    assert more[..|more| - 64] == input[at..at + 64 * n];
    assert more[|more| - 64..] == input[at + 64 * n..at + 64 * n + 64];
  }

  /** XXH3_accumulate; at and s are where its input and its secret pointer stand. */
  method Accumulate<Acc>(
      k: Kernels<Acc>, acc: Acc, input: seq<bv8>, at: nat, secret: seq<bv8>, s: nat, nbStripes: nat)
      returns (r: Acc)
    requires at + 64 * nbStripes <= |input| && 8 * (s + nbStripes) + 56 <= |secret|
    ensures r == Accumulated(k, acc, input[at..at + 64 * nbStripes], secret, s)
  {
    r := acc;
    var n := 0;
    while n < nbStripes
      invariant n <= nbStripes
      invariant r == Accumulated(k, acc, input[at..at + 64 * n], secret, s)
    {
      hide Accumulated;
      AccumulatedMore(k, acc, input, at, secret, s, n);
      r := k.accumulate(r, input[at + 64 * n..at + 64 * n + 64], secret[8 * (s + n)..8 * (s + n) + 64]);
      n := n + 1;
    }
  }

  lemma {:induction false} LastStripe<Acc>(k: Kernels<Acc>, secret: Secret, st: Progress<Acc>, data: seq<bv8>)
    requires |data| % 64 == 0 && data != [] && st.soFar + |data| / 64 <= StripesPerBlock(secret)
    requires st.soFar < StripesPerBlock(secret)
    ensures var shorter, last := data[..|data| - 64], data[|data| - 64..];
      var n := st.soFar + |shorter| / 64;
      && n + 1 == st.soFar + |data| / 64 && 8 * n + 64 <= |secret|
      && Absorb(k, secret, st, data) == Step(k, secret, Absorb(k, secret, st, shorter), last)
      && Accumulated(k, st.acc, data, secret, st.soFar)
         == k.accumulate(Accumulated(k, st.acc, shorter, secret, st.soFar), last, secret[8 * n..8 * n + 64])
  {
    hide StripesPerBlock, Step;
    assert |data[..|data| - 64]| / 64 == |data| / 64 - 1;
  }

  lemma {:induction false} NoStripe<Acc>(k: Kernels<Acc>, secret: Secret, st: Progress<Acc>)
    requires st.soFar < StripesPerBlock(secret)
    ensures Absorb(k, secret, st, []) == st && Accumulated(k, st.acc, [], secret, st.soFar) == st.acc
  {
    hide StripesPerBlock, Step;
  }

  lemma {:induction false} StepInBlock<Acc>(k: Kernels<Acc>, secret: Secret, acc: Acc, n: nat, stripe: seq<bv8>)
    requires n < StripesPerBlock(secret)
    ensures var more := k.accumulate(acc, stripe, secret[8 * n..8 * n + 64]);
      Step(k, secret, Progress(acc, n), stripe) ==
        if n + 1 < StripesPerBlock(secret) then Progress(more, n + 1)
        else Progress(k.scramble(more, secret[|secret| - 64..]), 0)
  {
    hide StripesPerBlock;
  }

  /** Inside one block the loop follows the reference; a full block is one scramble short of it. */
  lemma {:induction false} BlockRefines<Acc>(k: Kernels<Acc>, secret: Secret, st: Progress<Acc>, data: seq<bv8>)
    requires |data| % 64 == 0 && st.soFar + |data| / 64 <= StripesPerBlock(secret) && st.soFar < StripesPerBlock(secret)
    ensures var acc := Accumulated(k, st.acc, data, secret, st.soFar);
      Absorb(k, secret, st, data) ==
        if st.soFar + |data| / 64 < StripesPerBlock(secret) then Progress(acc, st.soFar + |data| / 64)
        else Progress(k.scramble(acc, secret[|secret| - 64..]), 0)
    decreases |data|
  {
    if data == [] {
      NoStripe(k, secret, st);
    } else {
      hide *;
      var shorter, last := data[..|data| - 64], data[|data| - 64..];
      LastStripe(k, secret, st, data);
      BlockRefines(k, secret, st, shorter);
      StepInBlock(k, secret, Accumulated(k, st.acc, shorter, secret, st.soFar), st.soFar + |shorter| / 64, last);
    }
  }

  /** What the loop makes of a chunk when all stripes before it are absorbed. */
  lemma {:induction false} AbsorbNext<Acc>(
      k: Kernels<Acc>, secret: Secret, start: Progress<Acc>, before: seq<bv8>, chunk: seq<bv8>)
    requires start.soFar < StripesPerBlock(secret) && |before| % 64 == 0 && |chunk| % 64 == 0
    requires Absorb(k, secret, start, before).soFar + |chunk| / 64 <= StripesPerBlock(secret)
    ensures var st := Absorb(k, secret, start, before);
      var acc := Accumulated(k, st.acc, chunk, secret, st.soFar);
      Absorb(k, secret, start, before + chunk) ==
        if st.soFar + |chunk| / 64 < StripesPerBlock(secret) then Progress(acc, st.soFar + |chunk| / 64)
        else Progress(k.scramble(acc, secret[|secret| - 64..]), 0)
  {
    hide *;
    AbsorbConcat(k, secret, start, before, chunk);
    BlockRefines(k, secret, Absorb(k, secret, start, before), chunk);
  }

  lemma {:induction false} SplitAt(s: seq<bv8>, i: nat, j: nat)
    requires i <= j <= |s|
    ensures s[..i] + s[i..j] == s[..j]
  {}

  // ----- The one-shot loop -----

  function BlockLen(stripes: nat): nat { 64 * stripes }

  function Quotient(a: nat, b: nat): nat
    requires b > 0
  {
    a / b
  }

  function NbBlocks(len: nat, stripes: nat): nat
    requires stripes > 0
  {
    Quotient(len, BlockLen(stripes))
  }

  function BlockStart(n: nat, stripes: nat): nat { n * BlockLen(stripes) }

  /** The loop's tail: the last partial block, and then the last 64 bytes. */
  method FinishLoop<Acc>(k: Kernels<Acc>, acc0: Acc, input: seq<bv8>, secret: Secret, at: nat) returns (acc: Acc)
    requires |input| > 64 && at % 64 == 0 && at <= |input| - 1 < at + 64 * StripesPerBlock(secret)
    requires Absorb(k, secret, Progress(k.init, 0), input[..at]) == Progress(acc0, 0)
    ensures acc == FinalAcc(k, input, secret)
  {
    hide Absorb, Accumulated, StripesPerBlock, Step;
    ghost var start := Progress(k.init, 0);
    acc := acc0;
    var nbStripes := (|input| - 1 - at) / 64;
    SplitAt(input, at, at + 64 * nbStripes);
    AbsorbNext(k, secret, start, input[..at], input[at..at + 64 * nbStripes]);
    acc := Accumulate(k, acc, input, at, secret, 0, nbStripes);
    acc := k.accumulate(acc, input[|input| - 64..],
      secret[|secret| - 64 - 7..|secret| - 7]);
  }

  lemma {:induction false} AbsorbNothing<Acc>(k: Kernels<Acc>, secret: Secret, start: Progress<Acc>, data: seq<bv8>)
    requires start.soFar < StripesPerBlock(secret) && data == []
    ensures Absorb(k, secret, start, data) == start
  {}

  lemma {:induction false} StartsAdd(m: nat, n: nat, stripes: nat)
    requires n <= m
    ensures BlockStart(m, stripes) == BlockStart(n, stripes) + BlockStart(m - n, stripes)
    ensures BlockStart(1, stripes) == 64 * stripes
  {
    var b := BlockLen(stripes);
    assert BlockStart(1, stripes) == b;
    hide BlockLen;
    assert m * b == n * b + (m - n) * b;
  }

  /** What follows the whole blocks is less than a block, and all blocks are whole stripes. */
  lemma {:induction false} BlocksCover(len: nat, stripes: nat)
    requires stripes > 0
    ensures BlockStart(0, stripes) == 0
    ensures var start := BlockStart(NbBlocks(len, stripes), stripes); start <= len < start + 64 * stripes
  {
    var b := BlockLen(stripes);
    assert len == len / b * b + len % b;
  }

  lemma {:induction false} NextBlockFits(len: nat, n: nat, stripes: nat)
    requires stripes > 0 && n < NbBlocks(len, stripes) && BlockStart(n, stripes) % 64 == 0
    ensures BlockStart(n + 1, stripes) == BlockStart(n, stripes) + 64 * stripes <= len
    ensures BlockStart(n + 1, stripes) % 64 == 0
  {
    BlocksCover(len, stripes);
    StartsAdd(NbBlocks(len, stripes), n + 1, stripes);
    StartsAdd(n + 1, n, stripes);
    hide BlockStart, NbBlocks;
  }

  /** XXH3_hashLong_internal_loop, from the initial accumulators up to the last stripe. */
  method HashLongInternalLoop<Acc>(k: Kernels<Acc>, input: seq<bv8>, secret: Secret) returns (acc: Acc)
    requires |input| > 64
    ensures acc == FinalAcc(k, input, secret)
  {
    hide Absorb, Accumulated, NbBlocks, BlockStart, StripesPerBlock, Step;
    var nbStripesPerBlock := StripesPerBlock(secret);
    var nbBlocks := NbBlocks(|input| - 1, nbStripesPerBlock);
    acc := k.init;
    ghost var start := Progress(k.init, 0);
    var n := 0;
    BlocksCover(|input| - 1, nbStripesPerBlock);
    AbsorbNothing(k, secret, start, input[..0]);
    while n < nbBlocks
      invariant n <= nbBlocks && BlockStart(n, nbStripesPerBlock) <= |input| - 1
      invariant BlockStart(n, nbStripesPerBlock) % 64 == 0
      invariant Absorb(k, secret, start, input[..BlockStart(n, nbStripesPerBlock)]) == Progress(acc, 0)
    {
      var at := BlockStart(n, nbStripesPerBlock);
      NextBlockFits(|input| - 1, n, nbStripesPerBlock);
      SplitAt(input, at, at + 64 * nbStripesPerBlock);
      AbsorbNext(k, secret, start, input[..at], input[at..at + 64 * nbStripesPerBlock]);
      acc := Accumulate(k, acc, input, at, secret, 0, nbStripesPerBlock);
      acc := k.scramble(acc, secret[|secret| - 64..]);
      n := n + 1;
    }
    acc := FinishLoop(k, acc, input, secret, BlockStart(nbBlocks, nbStripesPerBlock));
  }
}
