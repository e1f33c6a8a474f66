/** SYN cookies: issuing one, checking one, and the clock that ages them. */
module Cookie {
  import opened ConnectionHash
  import opened Machine

  /** calc_cookie_hash with the secret fixed. */
  type Hash = (bv8, Data) -> bv32

  /** The one the program uses; the lemmas below hold for any other as well. */
  function ProgramHash(cookieSecret: bv64): Hash { (stamp, d) => CookieHash(cookieSecret, stamp, d) }

  function Truncated(hash: bv32, stamp: bv8): bv32 { (hash & 0xFFFFFF00) | stamp as bv32 }
  function LowByte(v: bv32): bv8 { (v & 0xFF) as bv8 }

  /** The sequence number of the SYN-ACK sent at a timestamp. */
  function Issue(hash: Hash, now: bv8, d: Data): bv32 { Truncated(hash(now, d), now) }

  /** Timestamps wrap at 256. */
  function Age(now: bv8, stamp: bv8): bv8 { now - stamp }

  function Before(now: bv8): bv8 { now - 1 }

  /** check_syn_cookie */
  predicate Check(hash: Hash, now: bv8, value: bv32, d: Data) {
    var age := Age(now, LowByte(value));
    if age == 0 then Truncated(hash(now, d), now) == value
    else if age == 1 then Truncated(hash(Before(now), d), Before(now)) == value
    else false
  }

  lemma {:induction false} LowByteOfTruncated(h: bv32, stamp: bv8)
    ensures LowByte(Truncated(h, stamp)) == stamp
  {}

  /** The cookie keeps the upper 24 bits of the hash and carries the timestamp below them. */
  lemma {:induction false} TruncatedKeepsHash(h: bv32, stamp: bv8)
    ensures Truncated(h, stamp) >> 8 == h >> 8 && Truncated(h, stamp) & 0xFF == stamp as bv32
  {}

  /** The value has the stamp in its low byte and above it the upper 24 bits of the hash. */
  predicate Bits(value: bv32, hash: bv32, stamp: bv8) {
    value & 0xFF == stamp as bv32 && value >> 8 == hash >> 8
  }

  lemma {:induction false} BitsAreTruncated(v: bv32, h: bv32, stamp: bv8)
    requires Bits(v, h, stamp)
    ensures v == Truncated(h, stamp)
  {}

  lemma {:induction false} TruncatedBits(v: bv32, h: bv32, stamp: bv8)
    ensures v == Truncated(h, stamp) <==> Bits(v, h, stamp)
  {
    TruncatedKeepsHash(h, stamp);
    if Bits(v, h, stamp) { BitsAreTruncated(v, h, stamp); }
    hide Truncated;
  }

  lemma {:induction false} AgesAre(now: bv8, stamp: bv8)
    ensures Age(now, stamp) == 0 <==> stamp == now
    ensures Age(now, stamp) == 1 <==> stamp == Before(now)
  {}

  /** Exactly two values pass: the cookie of this tick and that of the tick before. */
  lemma {:induction false} AcceptedValues(hash: Hash, now: bv8, value: bv32, d: Data)
    ensures Check(hash, now, value, d) <==> value == Issue(hash, now, d) || value == Issue(hash, Before(now), d)
  {
    hide Truncated, LowByte, Age, Before;
    LowByteOfTruncated(hash(now, d), now);
    LowByteOfTruncated(hash(Before(now), d), Before(now));
    AgesAre(now, LowByte(value));
  }

  /** What an acknowledged value has to show: the timestamp of this tick or of the one
      before, and above it the hash taken at that timestamp. */
  predicate Shows(hash: Hash, now: bv8, value: bv32, d: Data) {
    Bits(value, hash(now, d), now) || Bits(value, hash(now - 1, d), now - 1)
  }

  lemma {:induction false} AcceptedBits(hash: Hash, now: bv8, value: bv32, d: Data)
    ensures Check(hash, now, value, d) <==> Shows(hash, now, value, d)
  {
    AcceptedValues(hash, now, value, d);
    TruncatedBits(value, hash(now, d), now);
    TruncatedBits(value, hash(now - 1, d), now - 1);
    assert Before(now) == now - 1;
    hide Check, Truncated, Before, Bits;
  }

  // ----- Ticks -----

  /** s_increment_timestamp, n times from zero. */
  function Stamp(n: nat): bv8 {
    if n == 0 then 0 else Stamp(n - 1) + 1
  }

  function Code(x: bv8): int { x as int }

  lemma {:induction false} NextCode(x: bv8)
    ensures Code(x + 1) == if Code(x) == 255 then 0 else Code(x) + 1
    ensures 0 <= Code(x) < 256
  {}

  lemma {:induction false} SameCode(x: bv8, y: bv8)
    ensures Code(x) == Code(y) <==> x == y
  {
    assert x as int as bv8 == x && y as int as bv8 == y;
  }

  lemma {:induction false} ZeroCode()
    ensures Code(0) == 0
  {}

  lemma {:induction false} StampWraps(n: nat)
    ensures Code(Stamp(n)) == n % 256
  {
    hide Code;
    if n > 0 {
      StampWraps(n - 1);
      NextCode(Stamp(n - 1));
    } else {
      ZeroCode();
    }
  }

  lemma {:induction false} BackOne(a: bv8, b: bv8)
    ensures Before(a) == b <==> a == b + 1
  {}

  lemma {:induction false} NextStamp(n: nat)
    ensures Stamp(n + 1) == Stamp(n) + 1
  {}

  lemma {:induction false} Apart(n: nat, m: nat)
    requires n <= m
    ensures (m - n) % 256 <= 1 <==> m % 256 == n % 256 || m % 256 == (n + 1) % 256
  {}

  /** Whatever the hash: equal timestamps or neighbouring ones, nothing else. */
  lemma {:induction false} IssuedAccepted(hash: Hash, now: bv8, sent: bv8, d: Data)
    ensures Check(hash, now, Issue(hash, sent, d), d) <==> now == sent || Before(now) == sent
  {
    hide Truncated, LowByte, Before, Check;
    AcceptedValues(hash, now, Issue(hash, sent, d), d);
    LowByteOfTruncated(hash(sent, d), sent);
    LowByteOfTruncated(hash(now, d), now);
    LowByteOfTruncated(hash(Before(now), d), Before(now));
  }

  /** A cookie issued at tick n is accepted at tick m exactly when m - n is 0 or 1
      modulo 256. */
  lemma {:induction false} Lifetime(hash: Hash, n: nat, m: nat, d: Data)
    requires n <= m
    ensures Check(hash, Stamp(m), Issue(hash, Stamp(n), d), d) <==> (m - n) % 256 <= 1
  {
    hide Code, Truncated, LowByte, Before, Stamp, Check, Issue;
    IssuedAccepted(hash, Stamp(m), Stamp(n), d);
    BackOne(Stamp(m), Stamp(n));
    NextStamp(n);
    SameCode(Stamp(m), Stamp(n));
    SameCode(Stamp(m), Stamp(n + 1));
    StampWraps(n); StampWraps(m); StampWraps(n + 1);
    Apart(n, m);
  }

  // ----- The loop that ticks every 64 seconds -----

  const REGISTER := 0x1_0000_0000_0000_0000

  /** The loop's test, on 64-bit registers. */
  predicate Due(oldCycles: nat, cycles: nat, hz: nat) {
    Wrap64(cycles - oldCycles) > Wrap64(64 * hz)
  }

  /** The cycle counts at which the loop ticks, given the counts it samples; the
      register holds a count modulo 2^64. */
  function Ticks(oldCycles: nat, samples: seq<nat>, hz: nat): (ticks: seq<nat>)
    decreases |samples|
  {
    if samples == [] then []
    else if Due(oldCycles, samples[0], hz) then
      [samples[0]] + Ticks(samples[0], samples[1..], hz)
    else Ticks(oldCycles, samples[1..], hz)
  }

  ghost predicate Ascending(s: seq<nat>) {
    forall i, j :: 0 <= i < j < |s| ==> s[i] <= s[j]
  }

  /** Main's loop over all samples until it quits: how often it ticks, and when. */
  method TickLoop(start: nat, samples: seq<nat>, hz: nat) returns (stamp: bv8, ticks: seq<nat>)
    ensures ticks == Ticks(start, samples, hz) && stamp == Stamp(|ticks|)
  {
    hide Due;
    var oldCycles: nat := start;
    ticks, stamp := [], 0;
    var i := 0;
    while i < |samples|
      invariant 0 <= i <= |samples|
      invariant ticks + Ticks(oldCycles, samples[i..], hz) == Ticks(start, samples, hz)
      invariant stamp == Stamp(|ticks|)
    {
      var cycles: nat := samples[i];
      assert samples[i..][1..] == samples[i + 1..];
      if Due(oldCycles, cycles, hz) {
        stamp := stamp + 1;
        ticks := ticks + [cycles];
        oldCycles := cycles;
      }
      i := i + 1;
    }
  }

  ghost predicate Spaced(ticks: seq<nat>, start: nat, gap: nat) {
    && (|ticks| > 0 ==> ticks[0] - start > gap)
    && (forall i, j :: 0 <= i < j < |ticks| ==> ticks[j] - ticks[i] > gap)
  }

  lemma {:induction false} FirstTick(c: nat, later: seq<nat>, start: nat, gap: nat)
    requires c - start > gap && Spaced(later, c, gap)
    ensures Spaced([c] + later, start, gap)
  {
    forall j | 0 <= j < |later| ensures later[j] - c > gap {
      if j > 0 { assert later[j] - later[0] > gap; }
    }
  }

  /** Two ticks are always more than 64 * hz cycles apart, even when the register wraps. */
  lemma {:induction false} TicksSpaced(start: nat, samples: seq<nat>, hz: nat)
    requires Ascending(samples) && (|samples| > 0 ==> start <= samples[0]) && 64 * hz < REGISTER
    ensures Spaced(Ticks(start, samples, hz), start, 64 * hz)
    ensures forall t :: t in Ticks(start, samples, hz) ==> t in samples
    decreases |samples|
  {
    if samples == [] {
    } else {
      var c, rest := samples[0], samples[1..];
      assert forall i :: 0 <= i < |rest| ==> rest[i] == samples[i + 1];
      Wrap64Shrinks(c - start);
      if Due(start, c, hz) {
        TicksSpaced(c, rest, hz);
        FirstTick(c, Ticks(c, rest, hz), start, 64 * hz);
      } else {
        TicksSpaced(start, rest, hz);
      }
    }
  }

  /** A tick, or the start, is at most gap cycles before s. */
  ghost predicate Recent(ticks: seq<nat>, start: nat, s: nat, gap: nat) {
    s - start <= gap || exists t :: t in ticks && s - gap <= t <= s
  }

  lemma {:induction false} RecentAfterTick(c: nat, later: seq<nat>, start: nat, s: nat, gap: nat)
    requires c <= s && Recent(later, c, s, gap)
    ensures Recent([c] + later, start, s, gap)
  {
    var ticks := [c] + later;
    if s - c <= gap {
      assert c in ticks;
    } else {
      var t :| t in later && s - gap <= t <= s;
      assert t in ticks;
    }
  }

  /** And they come in time: at every sample the last tick, or the start, is at most
      64 * hz cycles ago, as long as the register does not wrap in between. */
  lemma {:induction false} TicksPrompt(start: nat, samples: seq<nat>, hz: nat)
    requires Ascending(samples) && 64 * hz < REGISTER
    requires forall i :: 0 <= i < |samples| ==> start <= samples[i] < start + REGISTER
    ensures forall i :: 0 <= i < |samples| ==> Recent(Ticks(start, samples, hz), start, samples[i], 64 * hz)
    decreases |samples|
  {
    if samples == [] {
    } else {
      var c, rest := samples[0], samples[1..];
      assert forall i :: 0 <= i < |rest| ==> rest[i] == samples[i + 1];
      Wrap64Exact(c - start);
      Wrap64Exact(64 * hz);
      if c - start > 64 * hz {
        TicksPrompt(c, rest, hz);
        var ticks := [c] + Ticks(c, rest, hz);
        assert c in ticks;
        forall i | 0 <= i < |samples| ensures Recent(ticks, start, samples[i], 64 * hz) {
          if i > 0 { RecentAfterTick(c, Ticks(c, rest, hz), start, rest[i - 1], 64 * hz); }
        }
      } else {
        TicksPrompt(start, rest, hz);
        forall i | 0 <= i < |samples| ensures Recent(Ticks(start, samples, hz), start, samples[i], 64 * hz) {
          if i > 0 { assert Recent(Ticks(start, rest, hz), start, rest[i - 1], 64 * hz); }
        }
      }
    }
  }

  /** How many ticks have happened by a moment. */
  function TicksBy(ticks: seq<nat>, t: nat): (n: nat)
    ensures n <= |ticks|
  {
    if ticks == [] then 0 else (if ticks[0] <= t then 1 else 0) + TicksBy(ticks[1..], t)
  }

  lemma {:induction false} NoneBefore(ticks: seq<nat>, t: nat)
    requires forall i :: 0 <= i < |ticks| ==> t < ticks[i]
    ensures TicksBy(ticks, t) == 0
  {
    if ticks == [] {
    } else {
      NoneBefore(ticks[1..], t);
    }
  }

  /** Tick i has happened by t exactly if it is one of those counted. */
  lemma {:induction false} TicksByCounts(ticks: seq<nat>, t: nat, i: nat)
    requires Ascending(ticks) && i < |ticks|
    ensures ticks[i] <= t <==> i < TicksBy(ticks, t)
    decreases |ticks|
  {
    var rest := ticks[1..];
    assert forall k :: 0 <= k < |rest| ==> rest[k] == ticks[k + 1];
    if i > 0 {
      TicksByCounts(rest, t, i - 1);
    } else if ticks[0] > t {
      NoneBefore(ticks, t);
    }
  }

  lemma {:induction false} AtMostOneTick(ticks: seq<nat>, start: nat, gap: nat, t0: nat, t1: nat)
    requires Spaced(ticks, start, gap) && t0 <= t1 <= t0 + gap
    ensures TicksBy(ticks, t0) <= TicksBy(ticks, t1) <= TicksBy(ticks, t0) + 1
    ensures |ticks| > 0 && ticks[0] > t1 ==> TicksBy(ticks, t1) == 0
    decreases |ticks|
  {
    if ticks == [] {
    } else {
      var rest := ticks[1..];
      assert forall i :: 0 <= i < |rest| ==> rest[i] == ticks[i + 1];
      assert Spaced(rest, ticks[0], gap);
      AtMostOneTick(rest, ticks[0], gap, t0, t1);
    }
  }

  lemma {:induction false} TicksAreSamples(start: nat, samples: seq<nat>, hz: nat)
    ensures forall t :: t in Ticks(start, samples, hz) ==> t in samples
    decreases |samples|
  {
    if samples == [] {
    } else {
      TicksAreSamples(samples[0], samples[1..], hz);
      TicksAreSamples(start, samples[1..], hz);
    }
  }

  /** A count at which the loop does not tick is not a tick later either. */
  lemma {:induction false} TicksAfter(start: nat, samples: seq<nat>, hz: nat, c: nat)
    requires Ascending(samples) && (forall i :: 0 <= i < |samples| ==> c <= samples[i]) && !Due(start, c, hz)
    ensures forall i :: 0 <= i < |Ticks(start, samples, hz)| ==> c < Ticks(start, samples, hz)[i]
    decreases |samples|
  {
    if samples == [] {
    } else {
      var first, rest := samples[0], samples[1..];
      assert forall i :: 0 <= i < |rest| ==> rest[i] == samples[i + 1];
      if Due(start, first, hz) {
        TicksAreSamples(first, rest, hz);
        assert forall i :: 0 <= i < |Ticks(first, rest, hz)| ==> Ticks(first, rest, hz)[i] in rest;
        assert forall t :: t in rest ==> first <= t;
      } else {
        TicksAfter(start, rest, hz, c);
      }
    }
  }

  lemma {:induction false} NeverDueAtOnce(c: nat, hz: nat)
    ensures !Due(c, c, hz)
  {}

  /** The timestamp the loop has at each sample is that of all ticks up to its count, so
      TicksBy is what a packet finds at that moment. */
  lemma {:induction false} TicksSoFar(start: nat, samples: seq<nat>, hz: nat, n: nat)
    requires Ascending(samples) && n < |samples|
    ensures |Ticks(start, samples[..n + 1], hz)| == TicksBy(Ticks(start, samples, hz), samples[n])
    decreases |samples|
  {
    hide Due;
    var c, rest := samples[0], samples[1..];
    assert forall i :: 0 <= i < |rest| ==> rest[i] == samples[i + 1];
    assert samples[..n + 1][1..] == rest[..n];
    var start' := if Due(start, c, hz) then c else start;
    if n > 0 {
      TicksSoFar(start', rest, hz, n - 1);
    } else {
      NeverDueAtOnce(c, hz);
      TicksAfter(start', rest, hz, c);
      NoneBefore(Ticks(start', rest, hz), c);
    }
  }

  lemma {:induction false} AckWraps(v: bv32)
    ensures v + 1 - 1 == v
  {}

  /** An ACK that comes back within 64 * hz cycles of its SYN is always accepted,
      through every wrap of the timestamp and of the acknowledgment number. */
  lemma {:induction false} PromptAckAccepted(
    hash: Hash, start: nat, samples: seq<nat>, hz: nat, t0: nat, t1: nat, d: Data, ack: bv32)
    requires Ascending(samples) && (|samples| > 0 ==> start <= samples[0]) && 64 * hz < REGISTER
    requires t0 <= t1 <= t0 + 64 * hz
    requires ack == Issue(hash, Stamp(TicksBy(Ticks(start, samples, hz), t0)), d) + 1
    ensures Check(hash, Stamp(TicksBy(Ticks(start, samples, hz), t1)), ack - 1, d)
  {
    hide Check, Issue, Stamp, Ticks;
    var ticks := Ticks(start, samples, hz);
    TicksSpaced(start, samples, hz);
    AtMostOneTick(ticks, start, 64 * hz, t0, t1);
    Lifetime(hash, TicksBy(ticks, t0), TicksBy(ticks, t1), d);
    AckWraps(Issue(hash, Stamp(TicksBy(ticks, t0)), d));
  }

  /** In the program's own terms: the nested XXH3 hash under its secret, with the timestamp
      in the low byte, sent as sequence number and acknowledged in time. */
  lemma {:induction false} ProgramAccepts(
    cookieSecret: bv64, start: nat, samples: seq<nat>, hz: nat, t0: nat, t1: nat, d: Data, ack: bv32)
    requires Ascending(samples) && (|samples| > 0 ==> start <= samples[0]) && 64 * hz < REGISTER
    requires t0 <= t1 <= t0 + 64 * hz
    requires var stamp := Stamp(TicksBy(Ticks(start, samples, hz), t0));
      ack == Truncated(CookieHash(cookieSecret, stamp, d), stamp) + 1
    ensures Check(ProgramHash(cookieSecret), Stamp(TicksBy(Ticks(start, samples, hz), t1)), ack - 1, d)
  {
    hide CookieHash, Check, Truncated, Stamp, TicksBy, Ticks;
    PromptAckAccepted(ProgramHash(cookieSecret), start, samples, hz, t0, t1, d, ack);
  }

  lemma {:induction false} ProgramHashIs(cookieSecret: bv64, stamp: bv8, d: Data)
    ensures ProgramHash(cookieSecret)(stamp, d) == CookieHash(cookieSecret, stamp, d)
  {
    hide CookieHash;
  }

  /** And only then: the program accepts exactly the values whose upper 24 bits are those of
      its keyed hash, taken at the timestamp in their low byte, now or one tick ago. */
  lemma {:induction false} ProgramAcceptsExactly(cookieSecret: bv64, now: bv8, value: bv32, d: Data)
    ensures Check(ProgramHash(cookieSecret), now, value, d) <==>
      || Bits(value, CookieHash(cookieSecret, now, d), now)
      || Bits(value, CookieHash(cookieSecret, now - 1, d), now - 1)
  {
    ProgramHashIs(cookieSecret, now, d);
    ProgramHashIs(cookieSecret, now - 1, d);
    hide CookieHash, Check, ProgramHash, Bits;
    AcceptedBits(ProgramHash(cookieSecret), now, value, d);
  }
}
