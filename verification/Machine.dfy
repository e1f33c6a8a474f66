/** What the machine adds to integers and byte buffers: sums that wrap at 32 or 64 bits,
    and memcpy. */
module Machine {
  /** A result kept in an unsigned 32-bit word. */
  function Wrap32(x: int): (r: nat)
    ensures r < 0x1_0000_0000
  {
    x % 0x1_0000_0000
  }

  /** A result kept in an unsigned 64-bit word. */
  function Wrap64(x: int): (r: nat)
    ensures r < 0x1_0000_0000_0000_0000
  {
    x % 0x1_0000_0000_0000_0000
  }

  lemma {:induction false} Wrap32Adds(a: nat, b: nat)
    ensures Wrap32(Wrap32(a) + b) == Wrap32(a + b)
  {
    var q := a / 0x1_0000_0000;
    assert a + b == q * 0x1_0000_0000 + (Wrap32(a) + b);
    assert (a + b) / 0x1_0000_0000 == q + (Wrap32(a) + b) / 0x1_0000_0000;
  }

  lemma {:induction false} Wrap64Adds(a: nat, b: nat)
    ensures Wrap64(Wrap64(a) + b) == Wrap64(a + b)
  {
    var q := a / 0x1_0000_0000_0000_0000;
    assert a + b == q * 0x1_0000_0000_0000_0000 + (Wrap64(a) + b);
    assert (a + b) / 0x1_0000_0000_0000_0000 == q + (Wrap64(a) + b) / 0x1_0000_0000_0000_0000;
  }

  lemma {:induction false} Wrap64Exact(x: nat)
    requires x < 0x1_0000_0000_0000_0000
    ensures Wrap64(x) == x
  {}

  lemma {:induction false} Wrap64Shrinks(x: nat)
    ensures Wrap64(x) <= x
  {}

  /** The list with src written over it from position at on. */
  function Spliced<T>(s: seq<T>, at: nat, src: seq<T>): (r: seq<T>)
    requires at + |src| <= |s|
    ensures |r| == |s|
  {
    s[..at] + src + s[at + |src|..]
  }

  /** memcpy into a buffer. */
  method CopyInto<T>(dst: array<T>, at: nat, src: seq<T>)
    requires at + |src| <= dst.Length
    modifies dst
    ensures dst[..] == Spliced(old(dst[..]), at, src)
  {
    forall i | 0 <= i < |src| {
      dst[at + i] := src[i];
    }
  }
}
