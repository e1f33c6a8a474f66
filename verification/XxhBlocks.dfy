/** What XXH32 and XXH64 share: whole blocks are run through the lanes, the rest
    waits in a buffer. The lanes and the round are arbitrary. */
module XxhBlocks {
  import opened Machine

  datatype Option<+T> = None | Some(value: T)

  datatype ErrorCode = OK | ERROR

  /** The block size, 16 or 32 bytes, and what one block does to the lanes. */
  datatype Rounds<!L> = Rounds(size: nat, round: (L, seq<bv8>) -> L)

  /** The lanes after all whole blocks, and the bytes left over. */
  datatype Chewed<L> = Chewed(lanes: L, rest: seq<bv8>)

  function Chew<L>(r: Rounds<L>, lanes: L, data: seq<bv8>): (c: Chewed<L>)
    requires r.size > 0
    ensures |c.rest| < r.size && |c.rest| <= |data|
  {
    if |data| < r.size then Chewed(lanes, data)
    else Chew(r, r.round(lanes, data[..r.size]), data[r.size..])
  }

  /** Chewing in two portions: the rest of the first is the head of the second. */
  lemma {:induction false} ChewTwice<L>(r: Rounds<L>, lanes: L, a: seq<bv8>, b: seq<bv8>)
    requires r.size > 0
    ensures var c := Chew(r, lanes, a);
      Chew(r, lanes, a + b) == Chew(r, c.lanes, c.rest + b)
    decreases |a|
  {
    if |a| >= r.size {
      ChewTwice(r, r.round(lanes, a[..r.size]), a[r.size..], b);
      assert (a + b)[..r.size] == a[..r.size];
      assert (a + b)[r.size..] == a[r.size..] + b;
    }
  }

  lemma {:induction false} RestLength16<L>(r: Rounds<L>, lanes: L, data: seq<bv8>)
    requires r.size == 16
    ensures |Chew(r, lanes, data).rest| == |data| % 16
    decreases |data|
  {
    if |data| >= 16 {
      RestLength16(r, r.round(lanes, data[..16]), data[16..]);
    }
  }

  lemma {:induction false} RestLength32<L>(r: Rounds<L>, lanes: L, data: seq<bv8>)
    requires r.size == 32
    ensures |Chew(r, lanes, data).rest| == |data| % 32
    decreases |data|
  {
    if |data| >= 32 {
      RestLength32(r, r.round(lanes, data[..32]), data[32..]);
    }
  }

  /** The one-shot loop: at is where the input pointer ends up. */
  method ChewAll<L>(r: Rounds<L>, lanes: L, input: seq<bv8>, start: nat) returns (v: L, at: nat)
    requires r.size > 0 && start <= |input|
    ensures start <= at <= |input| && Chewed(v, input[at..]) == Chew(r, lanes, input[start..])
  {
    v := lanes;
    at := start;
    while at + r.size <= |input|
      invariant start <= at <= |input|
      invariant Chew(r, v, input[at..]) == Chew(r, lanes, input[start..])
    {
      assert input[at..][..r.size] == input[at..at + r.size];
      assert input[at..][r.size..] == input[at + r.size..];
      v := r.round(v, input[at..at + r.size]);
      at := at + r.size;
    }
  }

  /** The body that XXH32_update and XXH64_update have in common: mem holds the rest. */
  method Feed<L>(r: Rounds<L>, lanes: L, mem: array<bv8>, memsize: nat, input: seq<bv8>)
      returns (v: L, memsize': nat)
    requires memsize < r.size == mem.Length
    modifies mem
    ensures memsize' < r.size
    ensures Chewed(v, mem[..memsize']) == Chew(r, lanes, old(mem[..memsize]) + input)
  {
    ghost var whole := mem[..memsize] + input;
    v := lanes;
    if memsize + |input| < r.size {
      CopyInto(mem, memsize, input);
      memsize' := memsize + |input|;
      return;
    }
    var p := 0;
    if memsize != 0 {
      p := r.size - memsize;
      CopyInto(mem, memsize, input[..p]);
      assert mem[..] == whole[..r.size] && input[p..] == whole[r.size..];
      v := r.round(v, mem[..]);
    }
    assert p == 0 ==> input[p..] == whole;
    v, p := ChewAll(r, v, input, p);
    CopyInto(mem, 0, input[p..]);
    memsize' := |input| - p;
  }

  // ----- Input that arrives in pieces -----

  function Concat(chunks: seq<seq<bv8>>): seq<bv8> {
    if chunks == [] then [] else Concat(chunks[..|chunks| - 1]) + chunks[|chunks| - 1]
  }

  lemma {:induction false} ConcatPrefix(chunks: seq<seq<bv8>>, i: nat)
    requires i <= |chunks|
    ensures |Concat(chunks[..i])| <= |Concat(chunks)|
    ensures i < |chunks| ==> Concat(chunks[..i + 1]) == Concat(chunks[..i]) + chunks[i]
    ensures i < |chunks| ==> |chunks[i]| <= |Concat(chunks)|
    decreases |chunks|
  {
    if i < |chunks| {
      var shorter := chunks[..|chunks| - 1];
      if i == |chunks| - 1 {
        assert chunks[..i + 1] == chunks && chunks[..i] == shorter;
      } else {
        ConcatPrefix(shorter, i);
        assert shorter[..i] == chunks[..i] && shorter[..i + 1] == chunks[..i + 1];
      }
    } else {
      assert chunks[..i] == chunks;
    }
  }
}
