/** XXH64: the one-shot hash and the streaming state. */
module Xxh64 {
  import opened Machine
  import opened Xxh3Short
  import opened XxhBlocks

  const PRIME64_1: bv64 := 0x9E3779B185EBCA87
  const PRIME64_2: bv64 := 0xC2B2AE3D27D4EB4F
  const PRIME64_5: bv64 := 0x27D4EB2F165667C5

  datatype Lanes = Lanes(v1: bv64, v2: bv64, v3: bv64, v4: bv64)

  // ----- Rounds -----

  function Round(acc: bv64, input: bv64): bv64 {
    (acc + input * 0xC2B2AE3D27D4EB4F).RotateLeft(31) * 0x9E3779B185EBCA87
  }

  function MergeRound(acc: bv64, val: bv64): bv64 {
    (acc ^ Round(0, val)) * 0x9E3779B185EBCA87 + 0x85EBCA77C2B2AE63
  }

  function BlockRound(v: Lanes, block: seq<bv8>): Lanes {
    if |block| != 32 then v
    else Lanes(Round(v.v1, ReadLE64(block, 0)), Round(v.v2, ReadLE64(block, 8)),
               Round(v.v3, ReadLE64(block, 16)), Round(v.v4, ReadLE64(block, 24)))
  }

  function Rounds64(): (r: Rounds<Lanes>)
    ensures r.size == 32
  {
    Rounds(32, (v, block) => BlockRound(v, block))
  }

  function Init(seed: bv64): Lanes {
    Lanes(seed + PRIME64_1 + PRIME64_2, seed + PRIME64_2, seed, seed - PRIME64_1)
  }

  function Converge(v: Lanes): bv64 {
    var h := v.v1.RotateLeft(1) + v.v2.RotateLeft(7) + v.v3.RotateLeft(12) + v.v4.RotateLeft(18);
    MergeRound(MergeRound(MergeRound(MergeRound(h, v.v1), v.v2), v.v3), v.v4)
  }

  function SmallStart(seed: bv64): bv64 { seed + PRIME64_5 }

  // ----- The final mix of the last 0 to 31 bytes -----

  function Process8(h: bv64, w: bv64): bv64 {
    (h ^ Round(0, w)).RotateLeft(27) * 0x9E3779B185EBCA87 + 0x85EBCA77C2B2AE63
  }

  function Process4(h: bv64, w: bv32): bv64 {
    (h ^ (w as bv64 * 0x9E3779B185EBCA87)).RotateLeft(23) * 0xC2B2AE3D27D4EB4F + 0x165667B19E3779F9
  }

  function Process1(h: bv64, b: bv8): bv64 {
    (h ^ (b as bv64 * 0x27D4EB2F165667C5)).RotateLeft(11) * 0x9E3779B185EBCA87
  }

  /** Eight bytes at a time while possible, then four, then one at a time. */
  function Mix(h: bv64, s: seq<bv8>): bv64
    decreases |s|
  {
    if |s| >= 8 then Mix(Process8(h, ReadLE64(s, 0)), s[8..])
    else if |s| >= 4 then Mix(Process4(h, ReadLE32(s, 0)), s[4..])
    else if |s| > 0 then Mix(Process1(h, s[0]), s[1..])
    else h
  }

  function Finalize(h: bv64, s: seq<bv8>): bv64 { XXH64Avalanche(Mix(h, s)) }

  function Read8(s: seq<bv8>, at: nat): (w: bv64)
    requires at + 8 <= |s|
    ensures w == ReadLE64(s[at..], 0)
  {
    ReadsAgree(s, at, s[at..], 0);
    ReadsAgree(s, at + 4, s[at..], 4);
    hide ReadLE32;
    ReadLE64(s, at)
  }

  /** XXH64_finalize */
  method FinalizeLoops(h: bv64, ptr: seq<bv8>, len: nat) returns (r: bv64)
    requires len % 32 <= |ptr|
    ensures r == Finalize(h, ptr[..len % 32])
  {
    hide XXH64Avalanche, Process1, Process4, Process8, ReadLE32, ReadLE64;
    var s := ptr[..len % 32];
    var at := 0;
    r := h;
    assert s[0..] == s;
    while |s| - at >= 8
      invariant at <= |s| && Mix(r, s[at..]) == Mix(h, s)
    {
      ReadsAgree(s, at, s[at..], 0);
      ReadsAgree(s, at + 4, s[at..], 4);
      assert s[at..][8..] == s[at + 8..];
      r := Process8(r, Read8(s, at));
      at := at + 8;
    }
    if |s| - at >= 4 {
      ReadsAgree(s, at, s[at..], 0);
      assert s[at..][4..] == s[at + 4..];
      r := Process4(r, ReadLE32(s, at));
      at := at + 4;
    }
    while |s| - at > 0
      invariant |s| - 4 < at <= |s| && Mix(r, s[at..]) == Mix(h, s)
    {
      assert s[at..][1..] == s[at + 1..];
      r := Process1(r, s[at]);
      at := at + 1;
    }
    r := XXH64Avalanche(r);
  }

  // ----- One-shot -----

  /** The 64-bit count of any number of bytes. */
  function AddCount(h: bv64, count: nat): bv64
    requires count < 0x1_0000_0000_0000_0000
  {
    h + count as bv64
  }

  function Hash(input: seq<bv8>, seed: bv64): bv64 {
    var c := Chew(Rounds64(), Init(seed), input);
    var start := if |input| >= 32 then Converge(c.lanes) else SmallStart(seed);
    Finalize(AddCount(start, Wrap64(|input|)), c.rest)
  }

  /** XXH64_endian_align */
  method OneShot(input: seq<bv8>, seed: bv64) returns (h: bv64)
    ensures h == Hash(input, seed)
  {
    hide BlockRound, Init, Converge, SmallStart, AddCount, Wrap64, Finalize;
    var at := 0;
    assert input[0..] == input;
    RestLength32(Rounds64(), Init(seed), input);
    if |input| >= 32 {
      var v;
      v, at := ChewAll(Rounds64(), Init(seed), input, 0);
      h := Converge(v);
    } else {
      h := SmallStart(seed);
    }
    h := AddCount(h, Wrap64(|input|));
    assert input[at..][..|input| % 32] == input[at..];
    h := FinalizeLoops(h, input[at..], |input|);
  }

  // ----- Streaming -----

  /** The lanes, the buffered rest and the count are those of everything fed. */
  ghost predicate Holds(v: Lanes, rest: seq<bv8>, totalLen: nat, seed: bv64, fed: seq<bv8>) {
    Chewed(v, rest) == Chew(Rounds64(), Init(seed), fed) && totalLen == Wrap64(|fed|)
  }

  lemma {:induction false} HoldsMore(
      v: Lanes, rest: seq<bv8>, totalLen: nat, seed: bv64, fed: seq<bv8>,
      input: seq<bv8>, v': Lanes, rest': seq<bv8>)
    requires Holds(v, rest, totalLen, seed, fed)
    requires Chewed(v', rest') == Chew(Rounds64(), v, rest + input)
    ensures Holds(v', rest', Wrap64(totalLen + |input|), seed, fed + input)
  {
    hide Chew, Rounds64, Init, Wrap64;
    Wrap64Adds(|fed|, |input|);
    ChewTwice(Rounds64(), Init(seed), fed, input);
  }

  /** Until a block is complete the third lane is the seed. */
  lemma {:induction false} UntouchedSeed(seed: bv64, fed: seq<bv8>)
    ensures |fed| < 32 ==> Chew(Rounds64(), Init(seed), fed).lanes.v3 == seed
  {
    hide BlockRound;
  }

  lemma {:induction false} HashFromState(v: Lanes, rest: seq<bv8>, totalLen: nat, seed: bv64, fed: seq<bv8>)
    requires Holds(v, rest, totalLen, seed, fed) && |fed| < 0x1_0000_0000_0000_0000
    ensures totalLen == |fed| && |rest| == totalLen % 32
    ensures Hash(fed, seed) ==
      Finalize(AddCount(if totalLen >= 32 then Converge(v) else SmallStart(v.v3), totalLen), rest)
  {
    hide Chew, Rounds64, Init, Wrap64, Converge, SmallStart, AddCount, Finalize;
    UntouchedSeed(seed, fed);
    RestLength32(Rounds64(), Init(seed), fed);
    Wrap64Exact(|fed|);
  }

  class Xxh64State {
    var v: Lanes
    const mem: array<bv8>
    var memsize: nat
    var totalLen: nat
    ghost var fed: seq<bv8>
    ghost var seed: bv64

    ghost predicate Valid()
      reads this, mem
    {
      mem.Length == 32 && memsize < 32 && Holds(v, mem[..memsize], totalLen, seed, fed)
    }

    /** XXH64_reset */
    constructor (seed: bv64)
      ensures Valid() && fed == [] && this.seed == seed && fresh(mem)
    {
      hide BlockRound, Init;
      v := Init(seed);
      mem := new bv8[32];
      memsize, totalLen := 0, 0;
      fed := [];
      this.seed := seed;
      new;
      assert mem[..0] == [];
    }

    method UpdateBytes(input: seq<bv8>)
      requires Valid()
      modifies this, mem
      ensures Valid() && fed == old(fed) + input && seed == old(seed)
    {
      hide Holds, Chew, Wrap64;
      ghost var before, rest, total := v, mem[..memsize], totalLen;
      totalLen := Wrap64(totalLen + |input|);
      v, memsize := Feed(Rounds64(), v, mem, memsize, input);
      HoldsMore(before, rest, total, seed, fed, input, v, mem[..memsize]);
      fed := fed + input;
    }

    /** XXH64_update: without an input it only reports an error. */
    method Update(data: Option<seq<bv8>>) returns (e: ErrorCode)
      requires Valid()
      modifies this, mem
      ensures Valid() && seed == old(seed)
      ensures e == OK <==> data.Some?
      ensures fed == if data.Some? then old(fed) + data.value else old(fed)
    {
      if data == None { return ERROR; }
      UpdateBytes(data.value);
      return OK;
    }

    /** XXH64_digest: the one-shot hash of everything fed. */
    method Digest() returns (h: bv64)
      requires Valid() && |fed| < 0x1_0000_0000_0000_0000
      ensures h == Hash(fed, seed)
    {
      HashFromState(v, mem[..memsize], totalLen, seed, fed);
      hide Hash, Converge, SmallStart, AddCount, Finalize, Holds;
      if totalLen >= 32 {
        h := Converge(v);
      } else {
        h := SmallStart(v.v3);
      }
      h := AddCount(h, totalLen);
      assert mem[..][..totalLen % 32] == mem[..memsize];
      h := FinalizeLoops(h, mem[..], totalLen);
    }
  }

  /** For every seed and every way to cut the input, streaming is the one-shot hash. */
  method Stream(chunks: seq<seq<bv8>>, seed: bv64) returns (h: bv64)
    requires |Concat(chunks)| < 0x1_0000_0000_0000_0000
    ensures h == Hash(Concat(chunks), seed)
  {
    hide Hash;
    var state := new Xxh64State(seed);
    for i := 0 to |chunks|
      invariant fresh(state) && fresh(state.mem)
      invariant state.Valid() && state.fed == Concat(chunks[..i]) && state.seed == seed
    {
      ConcatPrefix(chunks, i);
      var _ := state.Update(Some(chunks[i]));
    }
    assert chunks[..|chunks|] == chunks;
    h := state.Digest();
  }
}
