/** The Internet checksum as DPDK computes it: a 32-bit sum over 16-bit words in
    memory order, folded twice. */
module Checksum {
  import opened Machine

  type Byte = x: int | 0 <= x < 256
  type Word16 = x: int | 0 <= x < 0x1_0000

  /** A 16-bit load on a little-endian machine. */
  function WordAt(s: seq<Byte>, i: nat): Word16
    requires i + 1 < |s|
  {
    s[i] as int + 256 * s[i + 1] as int
  }

  /** The plain sum of all words; an odd last byte counts as a word of its own. */
  function WordSum(s: seq<Byte>): nat {
    if |s| == 0 then 0
    else if |s| == 1 then s[0]
    else WordAt(s, 0) + WordSum(s[2..])
  }

  /** Even one word per byte cannot reach 2^32 within 65535 bytes. */
  lemma {:induction false} WordSumBound(s: seq<Byte>)
    ensures WordSum(s) <= |s| * 0x8000
    decreases |s|
  {
    if |s| <= 1 {
    } else {
      WordSumBound(s[2..]);
    }
  }

  /** The running sum at position p, with what is left, gives the whole sum modulo 2^32. */
  ghost predicate Summing(buf: seq<Byte>, p: nat, sum: nat, sum0: nat) {
    p <= |buf| && Wrap32(sum + WordSum(buf[p..])) == Wrap32(sum0 + WordSum(buf))
  }

  lemma {:induction false} NoMoreWords(buf: seq<Byte>, p: nat, sum: nat, sum0: nat)
    requires p <= |buf| <= p + 1 && sum < 0x1_0000_0000 && Summing(buf, p, sum, sum0)
    ensures Wrap32(sum0 + WordSum(buf)) == if p < |buf| then Wrap32(sum + buf[p]) else sum
  {}

  lemma {:induction false} OneWord(buf: seq<Byte>, p: nat, sum: nat, sum0: nat)
    requires p + 2 <= |buf| && Summing(buf, p, sum, sum0)
    ensures Summing(buf, p + 2, Wrap32(sum + WordAt(buf, p)), sum0)
  {
    hide Wrap32;
    assert buf[p..][2..] == buf[p + 2..];
    Wrap32Adds(sum + WordAt(buf, p), WordSum(buf[p + 2..]));
  }

  lemma {:induction false} FourWords(buf: seq<Byte>, p: nat, sum: nat, sum0: nat)
    requires p + 8 <= |buf| && Summing(buf, p, sum, sum0)
    ensures var s1 := Wrap32(sum + WordAt(buf, p));
      var s2 := Wrap32(s1 + WordAt(buf, p + 2));
      var s3 := Wrap32(s2 + WordAt(buf, p + 4));
      Summing(buf, p + 8, Wrap32(s3 + WordAt(buf, p + 6)), sum0)
  {
    hide *;
    var s1 := Wrap32(sum + WordAt(buf, p));
    var s2 := Wrap32(s1 + WordAt(buf, p + 2));
    OneWord(buf, p, sum, sum0);
    OneWord(buf, p + 2, s1, sum0);
    OneWord(buf, p + 4, s2, sum0);
    OneWord(buf, p + 6, Wrap32(s2 + WordAt(buf, p + 4)), sum0);
  }

  /** __rte_raw_cksum: words four at a time, then one at a time, then an odd byte. */
  method RawCksum(buf: seq<Byte>, sum0: nat) returns (sum: nat)
    requires sum0 < 0x1_0000_0000
    ensures sum == Wrap32(sum0 + WordSum(buf))
  {
    var len: nat, p: nat := |buf|, 0;
    sum := sum0;
    assert buf[0..] == buf;
    assert Summing(buf, p, sum, sum0);
    hide *;
    while len >= 8
      invariant p + len == |buf| && sum < 0x1_0000_0000 && Summing(buf, p, sum, sum0)
    {
      FourWords(buf, p, sum, sum0);
      sum := Wrap32(sum + WordAt(buf, p));
      sum := Wrap32(sum + WordAt(buf, p + 2));
      sum := Wrap32(sum + WordAt(buf, p + 4));
      sum := Wrap32(sum + WordAt(buf, p + 6));
      len, p := len - 8, p + 8;
    }
    while len >= 2
      invariant p + len == |buf| && sum < 0x1_0000_0000 && Summing(buf, p, sum, sum0)
    {
      OneWord(buf, p, sum, sum0);
      sum := Wrap32(sum + WordAt(buf, p));
      len, p := len - 2, p + 2;
    }
    NoMoreWords(buf, p, sum, sum0);
    if len == 1 {
      sum := Wrap32(sum + buf[p]);
    }
  }

  // ----- Folding -----

  function FoldOnce(sum: nat): nat { sum / 0x1_0000 + sum % 0x1_0000 }

  /** __rte_raw_cksum_reduce, with its final truncation. */
  function Reduce(sum: nat): Word16 { FoldOnce(FoldOnce(sum)) % 0x1_0000 }

  /** The representative of a sum modulo 65535 that one's-complement addition
      chooses: zero for zero, otherwise 1 to 65535. */
  function Residue(sum: nat): Word16 {
    if sum == 0 then 0 else (sum - 1) % 0xFFFF + 1
  }

  lemma {:induction false} ResidueShift(a: nat, k: nat)
    requires a > 0 || k == 0
    ensures Residue(a + k * 0xFFFF) == Residue(a)
  {
    if a > 0 {
      assert a - 1 + k * 0xFFFF == ((a - 1) / 0xFFFF + k) * 0xFFFF + (a - 1) % 0xFFFF;
    }
  }

  /** The buffer as one number, least significant byte first. */
  function LittleEndian(s: seq<Byte>): nat {
    if s == [] then 0 else s[0] + 256 * LittleEndian(s[1..])
  }

  lemma {:induction false} NumberIsSum(s: seq<Byte>) returns (k: nat)
    ensures LittleEndian(s) == WordSum(s) + k * 0xFFFF
    decreases |s|
  {
    if |s| <= 1 {
      k := 0;
    } else {
      var k' := NumberIsSum(s[2..]);
      var rest := LittleEndian(s[2..]);
      assert s[1..][0] == s[1] && s[1..][1..] == s[2..];
      assert LittleEndian(s) == s[0] as int + 256 * s[1] as int + 0x1_0000 * rest;
      k := k' + rest;
    }
  }

  lemma {:induction false} SumIsZero(s: seq<Byte>)
    ensures WordSum(s) == 0 <==> LittleEndian(s) == 0
    decreases |s|
  {
    if |s| <= 1 {
    } else {
      SumIsZero(s[2..]);
      assert s[1..][0] == s[1] && s[1..][1..] == s[2..];
    }
  }

  /** The checksum is arithmetic modulo 65535: the sum of the words has the residue of the
      whole buffer read as one number. */
  lemma {:induction false} SumIsNumber(s: seq<Byte>)
    ensures Residue(WordSum(s)) == Residue(LittleEndian(s))
  {
    SumIsZero(s);
    var k := NumberIsSum(s);
    hide WordSum, LittleEndian, Residue;
    if WordSum(s) > 0 { ResidueShift(WordSum(s), k); }
  }

  lemma {:induction false} FoldKeepsResidue(sum: nat)
    ensures Residue(FoldOnce(sum)) == Residue(sum)
  {
    var h, l := sum / 0x1_0000, sum % 0x1_0000;
    assert sum == h * 0xFFFF + (h + l);
    ResidueShift(h + l, h);
  }

  /** Two folds of a 32-bit sum always fit 16 bits and keep its residue. */
  lemma {:induction false} ReduceIsResidue(sum: nat)
    requires sum < 0x1_0000_0000
    ensures FoldOnce(FoldOnce(sum)) < 0x1_0000
    ensures Reduce(sum) == Residue(sum)
  {
    FoldKeepsResidue(sum);
    FoldKeepsResidue(FoldOnce(sum));
  }

  lemma {:induction false} SumExact(buf: seq<Byte>)
    requires |buf| <= 65535
    ensures WordSum(buf) < 0x1_0000_0000 && Wrap32(WordSum(buf)) == WordSum(buf)
  {
    WordSumBound(buf);
  }

  /** rte_raw_cksum: up to 65535 bytes no addition of the loop ever wraps. */
  method RawCksumReduced(buf: seq<Byte>) returns (r: Word16)
    requires |buf| <= 65535
    ensures r == Residue(WordSum(buf))
  {
    var sum := RawCksum(buf, 0);
    SumExact(buf);
    ReduceIsResidue(WordSum(buf));
    r := Reduce(sum);
  }

  // ----- Residues add up -----

  lemma {:induction false} ResidueIsSum(sum: nat)
    ensures exists k: nat :: sum == Residue(sum) + k * 0xFFFF
  {
    if sum == 0 {
      assert sum == Residue(sum) + 0 * 0xFFFF;
    } else {
      assert sum == Residue(sum) + ((sum - 1) / 0xFFFF) * 0xFFFF;
    }
  }

  lemma {:induction false} ResidueAdds(a: nat, b: nat)
    ensures Residue(Residue(a) + b) == Residue(a + b)
  {
    ResidueIsSum(a);
    var k: nat :| a == Residue(a) + k * 0xFFFF;
    if a > 0 {
      ResidueShift(Residue(a) + b, k);
    }
  }

  /** Adding the complement of a sum's residue always makes the sum all ones. */
  lemma {:induction false} ComplementCompletes(sum: nat)
    ensures Residue(sum + (0xFFFF - Residue(sum))) == 0xFFFF
  {
    ResidueIsSum(sum);
    var k: nat :| sum == Residue(sum) + k * 0xFFFF;
    ResidueShift(0xFFFF, k);
  }

  // ----- Sums over parts of a buffer -----

  lemma {:induction false} WordSumConcat(a: seq<Byte>, b: seq<Byte>)
    requires |a| % 2 == 0
    ensures WordSum(a + b) == WordSum(a) + WordSum(b)
    decreases |a|
  {
    if a == [] {
      assert a + b == b;
    } else {
      WordSumConcat(a[2..], b);
      assert (a + b)[2..] == a[2..] + b;
    }
  }

  lemma {:induction false} SumAround(s: seq<Byte>, i: nat)
    requires i % 2 == 0 && i + 2 <= |s|
    ensures WordSum(s) == WordSum(s[..i]) + WordAt(s, i) + WordSum(s[i + 2..])
  {
    assert s == s[..i] + s[i..];
    WordSumConcat(s[..i], s[i..]);
    assert s[i..][2..] == s[i + 2..] && WordAt(s[i..], 0) == WordAt(s, i);
  }

  /** Overwriting the word at an even offset changes the sum by the difference. */
  lemma {:induction false} WordSumStore(s: seq<Byte>, t: seq<Byte>, i: nat)
    requires |s| == |t| && i % 2 == 0 && i + 2 <= |s|
    requires s[..i] == t[..i] && s[i + 2..] == t[i + 2..]
    ensures WordSum(t) == WordSum(s) - WordAt(s, i) + WordAt(t, i)
  {
    SumAround(s, i);
    SumAround(t, i);
  }

  // ----- Byte order -----

  function Swap16(w: Word16): Word16 { w % 256 * 256 + w / 256 }

  /** The sum over the same words read most significant byte first. */
  function WordSumBigEndian(s: seq<Byte>): nat {
    if |s| == 0 then 0
    else if |s| == 1 then 256 * s[0] as int
    else 256 * s[0] as int + s[1] as int + WordSumBigEndian(s[2..])
  }

  lemma {:induction false} SwapIsScale(s: seq<Byte>)
    ensures exists k: nat :: 256 * WordSum(s) == WordSumBigEndian(s) + k * 0xFFFF
    ensures WordSum(s) == 0 <==> WordSumBigEndian(s) == 0
    decreases |s|
  {
    if |s| <= 1 {
      assert 256 * WordSum(s) == WordSumBigEndian(s) + 0 * 0xFFFF;
    } else {
      SwapIsScale(s[2..]);
      var k: nat :| 256 * WordSum(s[2..]) == WordSumBigEndian(s[2..]) + k * 0xFFFF;
      assert 256 * WordSum(s) == WordSumBigEndian(s) + (k + s[1] as int) * 0xFFFF;
    }
  }

  lemma {:induction false} SwapOfResidue(r: Word16)
    requires r > 0
    ensures 256 * r == Swap16(r) + r / 256 * 0xFFFF && Swap16(r) > 0 && Residue(Swap16(r)) == Swap16(r)
  {}

  lemma {:induction false} ResiduePositive(a: nat)
    ensures Residue(a) > 0 <==> a > 0
  {}

  lemma {:induction false} ScaledResidue(a: nat, b: nat, k: nat)
    requires 256 * a == b + k * 0xFFFF && a > 0 && b > 0
    ensures Residue(b) == Swap16(Residue(a))
  {
    ResidueIsSum(a);
    var j: nat :| a == Residue(a) + j * 0xFFFF;
    var r := Residue(a);
    hide Residue, Swap16;
    assert r > 0 by { assert r == Residue(a); ResiduePositive(a); }
    SwapOfResidue(r);
    ResidueShift(b, k);
    ResidueShift(Swap16(r), r / 256 + 256 * j);
    assert b + k * 0xFFFF == Swap16(r) + (r / 256 + 256 * j) * 0xFFFF;
  }

  /** The checksum may be computed in either byte order: the folded sum of the
      swapped words is the swapped folded sum. */
  lemma {:induction false} ByteOrderIndependent(s: seq<Byte>)
    ensures Residue(WordSumBigEndian(s)) == Swap16(Residue(WordSum(s)))
  {
    hide WordSum, WordSumBigEndian;
    var a, b := WordSum(s), WordSumBigEndian(s);
    SwapIsScale(s);
    var k: nat :| 256 * a == b + k * 0xFFFF;
    if a > 0 {
      ScaledResidue(a, b, k);
    }
  }
}
