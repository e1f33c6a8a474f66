/** XXH32: the one-shot hash, its two finalizers, and the streaming state. */
module Xxh32 {
  import opened Machine
  import opened Xxh3Short
  import opened XxhBlocks

  const PRIME32_1: bv32 := 0x9E3779B1
  const PRIME32_2: bv32 := 0x85EBCA77
  const PRIME32_5: bv32 := 0x165667B1

  datatype Lanes = Lanes(v1: bv32, v2: bv32, v3: bv32, v4: bv32)

  // ----- Rounds -----

  function Round(acc: bv32, input: bv32): bv32 {
    (acc + input * 0x85EBCA77).RotateLeft(13) * 0x9E3779B1
  }

  function BlockRound(v: Lanes, block: seq<bv8>): Lanes {
    if |block| != 16 then v
    else Lanes(Round(v.v1, ReadLE32(block, 0)), Round(v.v2, ReadLE32(block, 4)),
               Round(v.v3, ReadLE32(block, 8)), Round(v.v4, ReadLE32(block, 12)))
  }

  function Rounds32(): (r: Rounds<Lanes>)
    ensures r.size == 16
  {
    Rounds(16, (v, block) => BlockRound(v, block))
  }

  function Init(seed: bv32): Lanes {
    Lanes(seed + PRIME32_1 + PRIME32_2, seed + PRIME32_2, seed, seed - PRIME32_1)
  }

  function Converge(v: Lanes): bv32 {
    v.v1.RotateLeft(1) + v.v2.RotateLeft(7) + v.v3.RotateLeft(12) + v.v4.RotateLeft(18)
  }

  function SmallStart(seed: bv32): bv32 { seed + PRIME32_5 }

  // ----- The final mix of the last 0 to 15 bytes -----

  function Avalanche(h: bv32): bv32 {
    var a := (h ^ (h >> 15)) * 0x85EBCA77;
    var b := (a ^ (a >> 13)) * 0xC2B2AE3D;
    b ^ (b >> 16)
  }

  function Process1(h: bv32, b: bv8): bv32 { (h + b as bv32 * 0x165667B1).RotateLeft(11) * 0x9E3779B1 }
  function Process4(h: bv32, w: bv32): bv32 { (h + w * 0xC2B2AE3D).RotateLeft(17) * 0x27D4EB2F }

  /** Four bytes at a time while possible, then one at a time. */
  function Mix(h: bv32, s: seq<bv8>): bv32
    decreases |s|
  {
    if |s| >= 4 then Mix(Process4(h, ReadLE32(s, 0)), s[4..])
    else if |s| > 0 then Mix(Process1(h, s[0]), s[1..])
    else h
  }

  function Finalize(h: bv32, s: seq<bv8>): bv32 { Avalanche(Mix(h, s)) }

  lemma {:induction false} MixNothing(h: bv32)
    ensures Mix(h, []) == h
  {
    hide Process1, Process4;
  }

  /** XXH_PROCESS4 and XXH_PROCESS1 at position at of the bytes to mix. */
  method Four(h: bv32, s: seq<bv8>, at: nat) returns (r: bv32)
    requires at + 4 <= |s|
    ensures Mix(r, s[at + 4..]) == Mix(h, s[at..])
  {
    hide Process4, ReadLE32;
    ReadsAgree(s, at, s[at..], 0);
    assert s[at..][4..] == s[at + 4..];
    r := Process4(h, ReadLE32(s, at));
  }

  method One(h: bv32, s: seq<bv8>, at: nat) returns (r: bv32)
    requires at < |s| < at + 4
    ensures Mix(r, s[at + 1..]) == Mix(h, s[at..])
  {
    hide Process1, Process4, ReadLE32;
    assert s[at..][1..] == s[at + 1..];
    r := Process1(h, s[at]);
  }

  /** XXH32_finalize as built with XXH_REROLL: words in one loop, then single bytes. */
  method FinalizeRerolled(h: bv32, ptr: seq<bv8>, len: nat) returns (r: bv32)
    requires len % 16 <= |ptr|
    ensures r == Finalize(h, ptr[..len % 16])
  {
    var s := ptr[..len % 16];
    var at := 0;
    r := h;
    assert s[0..] == s;
    while |s| - at >= 4
      invariant at <= |s| && Mix(r, s[at..]) == Mix(h, s)
    {
      r := Four(r, s, at);
      at := at + 4;
    }
    while |s| - at > 0
      invariant |s| - 4 < at <= |s| && Mix(r, s[at..]) == Mix(h, s)
    {
      r := One(r, s, at);
      at := at + 1;
    }
    hide Avalanche;
    r := Avalanche(r);
  }

  /** XXH32_finalize, the switch whose cases fall through, in its four runs of labels. */
  method FinalizeUnrolled(h: bv32, ptr: seq<bv8>, len: nat) returns (r: bv32)
    requires len % 16 <= |ptr|
    ensures r == Finalize(h, ptr[..len % 16])
  {
    hide Avalanche, Mix;
    var s := ptr[..len % 16];
    var n := len % 16;
    r := h;
    assert s[0..] == s && |s| == n;
    if n == 12 || n == 8 || n == 4 {
      if n >= 12 { r := Four(r, s, n - 12); }
      if n >= 8 { r := Four(r, s, n - 8); }
      r := Four(r, s, n - 4);
    } else if n == 13 || n == 9 || n == 5 {
      if n >= 13 { r := Four(r, s, n - 13); }
      if n >= 9 { r := Four(r, s, n - 9); }
      r := Four(r, s, n - 5);
      r := One(r, s, n - 1);
    } else if n == 14 || n == 10 || n == 6 {
      if n >= 14 { r := Four(r, s, n - 14); }
      if n >= 10 { r := Four(r, s, n - 10); }
      r := Four(r, s, n - 6);
      r := One(r, s, n - 2);
      r := One(r, s, n - 1);
    } else {
      if n >= 15 { r := Four(r, s, n - 15); }
      if n >= 11 { r := Four(r, s, n - 11); }
      if n >= 7 { r := Four(r, s, n - 7); }
      if n >= 3 { r := One(r, s, n - 3); }
      if n >= 2 { r := One(r, s, n - 2); }
      if n >= 1 { r := One(r, s, n - 1); }
    }
    assert s[n..] == [];
    MixNothing(r);
    r := Avalanche(r);
  }

  // ----- One-shot -----

  /** The length of any number of bytes as the code counts it in 32 bits. */
  function AddCount(h: bv32, count: nat): bv32
    requires count < 0x1_0000_0000
  {
    h + count as bv32
  }

  function Hash(input: seq<bv8>, seed: bv32): bv32 {
    var c := Chew(Rounds32(), Init(seed), input);
    var start := if |input| >= 16 then Converge(c.lanes) else SmallStart(seed);
    Finalize(AddCount(start, Wrap32(|input|)), c.rest)
  }

  /** XXH32_endian_align, with either finalizer. */
  method OneShot(input: seq<bv8>, seed: bv32, reroll: bool) returns (h: bv32)
    ensures h == Hash(input, seed)
  {
    hide BlockRound, Init, Converge, SmallStart, AddCount, Wrap32, Finalize;
    var at := 0;
    assert input[0..] == input;
    RestLength16(Rounds32(), Init(seed), input);
    if |input| >= 16 {
      var v;
      v, at := ChewAll(Rounds32(), Init(seed), input, 0);
      h := Converge(v);
    } else {
      h := SmallStart(seed);
    }
    h := AddCount(h, Wrap32(|input|));
    assert input[at..][..|input| % 16] == input[at..];
    if reroll {
      h := FinalizeRerolled(h, input[at..], |input|);
    } else {
      h := FinalizeUnrolled(h, input[at..], |input|);
    }
  }

  // ----- Streaming -----

  /** Although the count wraps, the flag is set exactly when 16 bytes were ever fed. */
  predicate Counted(totalLen32: nat, largeLen: bool, fed: nat) {
    totalLen32 == Wrap32(fed) && (largeLen <==> fed >= 16)
  }

  lemma {:induction false} CountedMore(totalLen32: nat, largeLen: bool, fed: nat, len: nat)
    requires Counted(totalLen32, largeLen, fed)
    ensures var total := Wrap32(totalLen32 + len);
      Counted(total, largeLen || len >= 16 || total >= 16, fed + len)
  {
    Wrap32Adds(fed, len);
  }

  /** The lanes, the buffered rest and the counters are those of everything fed. */
  ghost predicate Holds(v: Lanes, rest: seq<bv8>, totalLen32: nat, largeLen: bool, seed: bv32, fed: seq<bv8>) {
    Chewed(v, rest) == Chew(Rounds32(), Init(seed), fed) && Counted(totalLen32, largeLen, |fed|)
  }

  lemma {:induction false} HoldsMore(
      v: Lanes, rest: seq<bv8>, totalLen32: nat, largeLen: bool, seed: bv32, fed: seq<bv8>,
      input: seq<bv8>, v': Lanes, rest': seq<bv8>)
    requires Holds(v, rest, totalLen32, largeLen, seed, fed)
    requires Chewed(v', rest') == Chew(Rounds32(), v, rest + input)
    ensures var total := Wrap32(totalLen32 + |input|);
      Holds(v', rest', total, largeLen || |input| >= 16 || total >= 16, seed, fed + input)
  {
    hide Chew, Rounds32, Init, Counted, Wrap32;
    ChewTwice(Rounds32(), Init(seed), fed, input);
    CountedMore(totalLen32, largeLen, |fed|, |input|);
  }

  /** Until a block is complete the third lane is the seed. */
  lemma {:induction false} UntouchedSeed(seed: bv32, fed: seq<bv8>)
    ensures |fed| < 16 ==> Chew(Rounds32(), Init(seed), fed).lanes.v3 == seed
  {
    hide BlockRound;
  }

  class Xxh32State {
    var v: Lanes
    const mem: array<bv8>
    var memsize: nat
    var totalLen32: nat
    var largeLen: bool
    ghost var fed: seq<bv8>
    ghost var seed: bv32

    ghost predicate Valid()
      reads this, mem
    {
      mem.Length == 16 && memsize < 16 && Holds(v, mem[..memsize], totalLen32, largeLen, seed, fed)
    }

    /** XXH32_reset */
    constructor (seed: bv32)
      ensures Valid() && fed == [] && this.seed == seed && fresh(mem)
    {
      hide BlockRound, Init;
      v := Init(seed);
      mem := new bv8[16];
      memsize, totalLen32, largeLen := 0, 0, false;
      fed := [];
      this.seed := seed;
      new;
      assert mem[..0] == [];
    }

    method UpdateBytes(input: seq<bv8>)
      requires Valid()
      modifies this, mem
      ensures Valid() && fed == old(fed) + input && seed == old(seed)
    {
      hide Holds, Chew, Wrap32;
      ghost var old', rest := v, mem[..memsize];
      ghost var total', large' := totalLen32, largeLen;
      totalLen32 := Wrap32(totalLen32 + |input|);
      largeLen := largeLen || |input| >= 16 || totalLen32 >= 16;
      v, memsize := Feed(Rounds32(), v, mem, memsize, input);
      HoldsMore(old', rest, total', large', seed, fed, input, v, mem[..memsize]);
      fed := fed + input;
    }

    /** XXH32_update: without an input it only reports an error. */
    method Update(data: Option<seq<bv8>>) returns (e: ErrorCode)
      requires Valid()
      modifies this, mem
      ensures Valid() && seed == old(seed)
      ensures e == OK <==> data.Some?
      ensures fed == if data.Some? then old(fed) + data.value else old(fed)
    {
      if data == None { return ERROR; }
      UpdateBytes(data.value);
      return OK;
    }

    /** XXH32_digest: the one-shot hash of everything fed, even past 2^32 bytes. */
    method Digest(reroll: bool) returns (h: bv32)
      requires Valid()
      ensures h == Hash(fed, seed)
    {
      UntouchedSeed(seed, fed);
      hide BlockRound, Init, Converge, SmallStart, AddCount, Wrap32, Finalize;
      if largeLen {
        h := Converge(v);
      } else {
        h := SmallStart(v.v3);
      }
      h := AddCount(h, totalLen32);
      assert mem[..][..memsize % 16] == mem[..memsize];
      if reroll {
        h := FinalizeRerolled(h, mem[..], memsize);
      } else {
        h := FinalizeUnrolled(h, mem[..], memsize);
      }
    }
  }

  /** For every seed and every way to cut the input, streaming is the one-shot hash. */
  method Stream(chunks: seq<seq<bv8>>, seed: bv32, reroll: bool) returns (h: bv32)
    ensures h == Hash(Concat(chunks), seed)
  {
    hide Hash;
    var state := new Xxh32State(seed);
    for i := 0 to |chunks|
      invariant fresh(state) && fresh(state.mem)
      invariant state.Valid() && state.fed == Concat(chunks[..i]) && state.seed == seed
    {
      ConcatPrefix(chunks, i);
      var _ := state.Update(Some(chunks[i]));
    }
    assert chunks[..|chunks|] == chunks;
    h := state.Digest(reroll);
  }
}
