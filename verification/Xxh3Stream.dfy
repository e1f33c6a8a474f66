/** XXH3 streaming: a state fed by any number of updates, whose digest equals the
    one-shot hash of everything fed so far. */
module Xxh3Stream {
  import opened Machine
  import opened Xxh3Secret
  import opened Xxh3Long
  import opened XxhBlocks

  /** XXH3_consumeStripes: at most one scramble, wherever in the block it starts. */
  method ConsumeStripes<Acc>(
      k: Kernels<Acc>, acc: Acc, soFar: nat, input: seq<bv8>, at: nat, nbStripes: nat, secret: Secret)
      returns (acc': Acc, soFar': nat)
    requires soFar < StripesPerBlock(secret) && nbStripes <= StripesPerBlock(secret)
    requires at + 64 * nbStripes <= |input|
    ensures soFar' < StripesPerBlock(secret)
    ensures Progress(acc', soFar') == Absorb(k, secret, Progress(acc, soFar), input[at..at + 64 * nbStripes])
  {
    hide Absorb, Accumulated, Step, StripesPerBlock;
    var nbStripesPerBlock := StripesPerBlock(secret);
    ghost var start := Progress(acc, soFar);
    ghost var end := at + 64 * nbStripes;
    if nbStripesPerBlock - soFar <= nbStripes {
      var toEnd := nbStripesPerBlock - soFar;
      var after := nbStripes - toEnd;
      var mid := at + 64 * toEnd;
      ghost var head := input[at..mid];
      ghost var tail := input[mid..end];
      acc' := Accumulate(k, acc, input, at, secret, soFar, toEnd);
      BlockRefines(k, secret, start, head);
      acc' := k.scramble(acc', secret[|secret| - 64..]);
      BlockRefines(k, secret, Progress(acc', 0), tail);
      AbsorbConcat(k, secret, start, head, tail);
      assert input[at..end] == head + tail;
      acc' := Accumulate(k, acc', input, mid, secret, 0, after);
      soFar' := after;
    } else {
      BlockRefines(k, secret, start, input[at..end]);
      acc' := Accumulate(k, acc, input, at, secret, soFar, nbStripes);
      soFar' := soFar + nbStripes;
    }
  }

  /** The accumulators hold the first c bytes of the data, whole stripes, and none or a buffer at least. */
  ghost predicate Taken<Acc>(k: Kernels<Acc>, secret: Secret, acc: Acc, soFar: nat, data: seq<bv8>, c: nat) {
    && c <= |data| && c % 64 == 0 && (c > 0 ==> c >= 256)
    && soFar < StripesPerBlock(secret)
    && Progress(acc, soFar) == Absorb(k, secret, Progress(k.init, 0), data[..c])
  }

  /** From position i on, the end of the buffer still holds what was consumed last. */
  ghost predicate TailKept(buffer: seq<bv8>, data: seq<bv8>, c: nat, i: nat)
    requires |buffer| == 256 && c <= |data|
  {
    c >= 256 ==> forall j | 192 <= j < 256 && i <= j :: buffer[j] == data[c - 256 + j]
  }

  /** All but the newest bytes are taken; those are buffered, and there is at least
      one of them as soon as any byte was taken. */
  ghost predicate Holds<Acc>(
    k: Kernels<Acc>, secret: Secret, acc: Acc, soFar: nat, buffer: seq<bv8>, buffered: nat, fed: seq<bv8>)
  {
    && |buffer| == 256 && buffered <= 256 && buffered <= |fed|
    && var c := |fed| - buffered;
    && Taken(k, secret, acc, soFar, fed, c)
    && (c > 0 ==> buffered > 0)
    && buffer[..buffered] == fed[c..]
    && TailKept(buffer, fed, c, buffered)
  }

  lemma {:induction false} StripesBeforeLast(total: nat, buffered: nat)
    requires 0 < buffered <= total && (total - buffered) % 64 == 0
    ensures buffered >= 64 ==> total - buffered + (buffered - 1) / 64 * 64 == (total - 1) / 64 * 64
    ensures buffered < 64 ==> total - buffered == (total - 1) / 64 * 64
  {}

  lemma {:induction false} SliceOfSuffix(s: seq<bv8>, t: seq<bv8>, i: nat, j: nat)
    requires i <= j <= |t|
    ensures t[i..j] == (s + t)[|s| + i..|s| + j]
  {}

  lemma {:induction false} TakenLonger<Acc>(
      k: Kernels<Acc>, secret: Secret, acc: Acc, soFar: nat, data: seq<bv8>, c: nat, more: seq<bv8>)
    requires Taken(k, secret, acc, soFar, data, c)
    ensures Taken(k, secret, acc, soFar, data + more, c)
  {
    hide Absorb, StripesPerBlock;
    assert (data + more)[..c] == data[..c];
  }

  lemma {:induction false} HoldsMore<Acc>(
      k: Kernels<Acc>, secret: Secret, acc: Acc, soFar: nat, buffer: seq<bv8>, buffered: nat,
      fed: seq<bv8>, input: seq<bv8>)
    requires Holds(k, secret, acc, soFar, buffer, buffered, fed) && buffered + |input| <= 256
    ensures Holds(k, secret, acc, soFar, Spliced(buffer, buffered, input), buffered + |input|, fed + input)
  {
    hide Absorb, StripesPerBlock, Taken;
    var c := |fed| - buffered;
    TakenLonger(k, secret, acc, soFar, fed, c, input);
    assert (fed + input)[c..] == fed[c..] + input;
  }

  /** Completing the buffer yields the next 256 bytes; consumed in full, it is its own tail. */
  lemma {:induction false} HoldsComplete<Acc>(
      k: Kernels<Acc>, secret: Secret, acc: Acc, soFar: nat, buffer: seq<bv8>, buffered: nat,
      fed: seq<bv8>, input: seq<bv8>)
    requires Holds(k, secret, acc, soFar, buffer, buffered, fed) && buffered + |input| > 256
    ensures buffered <= 256 && buffered <= |fed| && |buffer| == 256 && (buffered == 0 ==> fed == [])
    ensures Taken(k, secret, acc, soFar, fed + input, |fed| - buffered)
    ensures var c, full := |fed| - buffered, Spliced(buffer, buffered, input[..256 - buffered]);
      full[0..256] == (fed + input)[c..c + 256] && TailKept(full, fed + input, c + 256, 0)
  {
    hide Absorb, StripesPerBlock, Taken;
    TakenLonger(k, secret, acc, soFar, fed, |fed| - buffered, input);
  }

  /** The 64 bytes before position at, kept in the last quarter of the buffer for a short digest. */
  lemma {:induction false} TailCopied(buffer: seq<bv8>, fed: seq<bv8>, input: seq<bv8>, at: nat)
    requires |buffer| == 256 && 64 <= at <= |input|
    ensures TailKept(Spliced(buffer, 192, input[at - 64..at]), fed + input, |fed| + at, 0)
  {}

  lemma {:induction false} RestHolds<Acc>(
      k: Kernels<Acc>, secret: Secret, acc: Acc, soFar: nat, buffer: seq<bv8>, fed: seq<bv8>, input: seq<bv8>, at: nat)
    requires |buffer| == 256 && at < |input| <= at + 256
    requires Taken(k, secret, acc, soFar, fed + input, |fed| + at)
    requires TailKept(buffer, fed + input, |fed| + at, 0)
    ensures Holds(k, secret, acc, soFar, Spliced(buffer, 0, input[at..]), |input| - at, fed + input)
  {
    hide Absorb, StripesPerBlock, Taken;
    assert (fed + input)[|fed| + at..] == input[at..];
  }

  /** Runs the next 256 bytes of the data through the accumulators. */
  method TakeBuffer<Acc>(
      k: Kernels<Acc>, secret: Secret, acc: Acc, soFar: nat, src: seq<bv8>, at: nat, ghost data: seq<bv8>, ghost c: nat)
      returns (acc': Acc, soFar': nat)
    requires Taken(k, secret, acc, soFar, data, c) && c + 256 <= |data|
    requires at + 256 <= |src| && src[at..at + 256] == data[c..c + 256]
    ensures Taken(k, secret, acc', soFar', data, c + 256)
  {
    hide Absorb, StripesPerBlock;
    AbsorbConcat(k, secret, Progress(k.init, 0), data[..c], data[c..c + 256]);
    SplitAt(data, c, c + 256);
    acc', soFar' := ConsumeStripes(k, acc, soFar, src, at, 4, secret);
  }

  class Xxh3State<Acc> {
    const k: Kernels<Acc>
    const buffer: array<bv8>
    var acc: Acc
    var customSecret: DefaultSecret
    var bufferedSize: nat
    var nbStripesSoFar: nat
    var totalLen: nat
    var nbStripesPerBlock: nat
    var secretLimit: nat
    var seed: bv64
    var extSecret: Option<seq<bv8>>
    /** Everything fed since the last reset. */
    ghost var fed: seq<bv8>

    /** Holds from creation on: a non-zero seed is the one customSecret was made from. */
    ghost predicate SeedKnown()
      reads this`customSecret, this`seed
    {
      buffer.Length == 256 && (seed != 0 ==> customSecret == k.initSecret(seed))
    }

    function SecretInUse(): seq<bv8>
      reads this`customSecret, this`extSecret
    {
      if extSecret == None then customSecret else extSecret.value
    }

    /** The secret and the sizes derived from it are those of one of the three modes. */
    ghost predicate Configured()
      reads this`customSecret, this`seed, this`extSecret, this`secretLimit, this`nbStripesPerBlock
      ensures Configured() ==> buffer.Length == 256 && |SecretInUse()| >= 136
    {
      && SeedKnown()
      && |SecretInUse()| >= 136
      && secretLimit == |SecretInUse()| - 64
      && nbStripesPerBlock == secretLimit / 8
      && (extSecret == None <==> seed != 0)
    }

    ghost predicate Held()
      reads this, buffer
    {
      Configured() && Holds(k, SecretInUse(), acc, nbStripesSoFar, buffer[..], bufferedSize, fed)
    }

    ghost predicate Ready()
      reads this, buffer
    {
      Held() && totalLen == Wrap64(|fed|)
    }

    /** XXH3_INITSTATE: only the seed is defined before the first reset. */
    constructor (k: Kernels<Acc>, garbage: DefaultSecret)
      ensures SeedKnown() && this.k == k && fresh(buffer)
    {
      this.k := k;
      buffer := new bv8[256];
      acc := k.init;
      customSecret := garbage;
      bufferedSize, nbStripesSoFar, totalLen, nbStripesPerBlock, secretLimit := 0, 0, 0, 0, 0;
      seed := 0;
      extSecret := None;
      fed := [];
    }

    /** XXH3_reset_internal */
    method ResetInternal(newSeed: bv64, secret: Option<seq<bv8>>, secretSize: nat)
      modifies this
      ensures acc == k.init && bufferedSize == 0 && nbStripesSoFar == 0 && totalLen == 0 && fed == []
      ensures seed == newSeed && extSecret == secret && customSecret == old(customSecret)
      ensures secretLimit == Wrap64(secretSize - 64) && nbStripesPerBlock == secretLimit / 8
    {
      bufferedSize, nbStripesSoFar, totalLen := 0, 0, 0;
      acc := k.init;
      seed := newSeed;
      extSecret := secret;
      secretLimit := Wrap64(secretSize - 64);
      nbStripesPerBlock := secretLimit / 8;
      fed := [];
    }

    method Reset()
      requires SeedKnown()
      modifies this
      ensures Ready() && fed == [] && seed == 0 && extSecret == Some(k.kSecret)
    {
      ResetInternal(0, Some(k.kSecret), 192);
    }

    /** Rejects a missing or short secret, after having overwritten the state with it. */
    method ResetWithSecret(secret: Option<seq<bv8>>, secretSize: nat) returns (e: ErrorCode)
      requires SeedKnown() && secretSize < 0x1_0000_0000_0000_0000
      requires secret.Some? ==> |secret.value| == secretSize
      modifies this
      ensures SeedKnown()
      ensures e == OK <==> secret.Some? && secretSize >= 136
      ensures e == OK ==> Ready() && fed == [] && seed == 0 && extSecret == secret
    {
      ResetInternal(0, secret, secretSize);
      if secret == None { return ERROR; }
      if secretSize < 136 { return ERROR; }
      return OK;
    }

    /** Regenerates the custom secret only when the seed has changed. */
    method ResetWithSeed(newSeed: bv64)
      requires SeedKnown()
      modifies this
      ensures Ready() && fed == [] && seed == newSeed
      ensures newSeed == 0 ==> extSecret == Some(k.kSecret)
    {
      if newSeed == 0 {
        Reset();
        return;
      }
      if newSeed != seed {
        customSecret := k.initSecret(newSeed);
      }
      ResetInternal(newSeed, None, 192);
    }

    method BufferAll(input: seq<bv8>)
      requires Held() && bufferedSize + |input| <= 256
      modifies this`fed, this`bufferedSize, buffer
      ensures Held() && fed == old(fed) + input
    {
      HoldsMore(k, SecretInUse(), acc, nbStripesSoFar, buffer[..], bufferedSize, fed, input);
      hide Configured, Holds, Spliced;
      ghost var loaded := Spliced(buffer[..], bufferedSize, input);
      CopyInto(buffer, bufferedSize, input);
      assert buffer[..] == loaded;
      bufferedSize := bufferedSize + |input|;
      fed := fed + input;
      assert Configured();
    }

    /** What is left, one byte at least and 256 at most, waits in the buffer for the next call. */
    method BufferRest(input: seq<bv8>, at: nat)
      requires Configured() && at < |input| <= at + 256
      requires Taken(k, SecretInUse(), acc, nbStripesSoFar, fed + input, |fed| + at)
      requires TailKept(buffer[..], fed + input, |fed| + at, 0)
      modifies this`fed, this`bufferedSize, buffer
      ensures Held() && fed == old(fed) + input
    {
      hide Configured, Holds, Taken, TailKept, Spliced;
      RestHolds(k, SecretInUse(), acc, nbStripesSoFar, buffer[..], fed, input, at);
      CopyInto(buffer, 0, input[at..]);
      bufferedSize := |input| - at;
      fed := fed + input;
    }

    /** Tops up a buffer that holds something and runs all of it; an empty one is passed over. */
    method CompleteBuffer(input: seq<bv8>) returns (at: nat)
      requires Held() && bufferedSize + |input| > 256
      modifies this`bufferedSize, this`acc, this`nbStripesSoFar, buffer
      ensures Configured() && at < |input|
      ensures Taken(k, SecretInUse(), acc, nbStripesSoFar, fed + input, |fed| + at)
      ensures at + 256 < |input| || TailKept(buffer[..], fed + input, |fed| + at, 0)
    {
      hide Taken, TailKept, Configured, Holds, Spliced;
      ghost var c := |fed| - bufferedSize;
      HoldsComplete(k, SecretInUse(), acc, nbStripesSoFar, buffer[..], bufferedSize, fed, input);
      at := 0;
      if bufferedSize != 0 {
        at := 256 - bufferedSize;
        CopyInto(buffer, bufferedSize, input[..at]);
        acc, nbStripesSoFar := TakeBuffer(k, SecretInUse(), acc, nbStripesSoFar, buffer[..], 0, fed + input, c);
        bufferedSize := 0;
      }
    }

    /** The do-while loop: at least one more byte than is consumed always follows. */
    method ConsumeInput(input: seq<bv8>, start: nat) returns (at: nat)
      requires Configured() && start + 256 < |input|
      requires Taken(k, SecretInUse(), acc, nbStripesSoFar, fed + input, |fed| + start)
      modifies this`acc, this`nbStripesSoFar, buffer
      ensures Configured() && start + 256 <= at < |input| <= at + 256
      ensures Taken(k, SecretInUse(), acc, nbStripesSoFar, fed + input, |fed| + at)
      ensures TailKept(buffer[..], fed + input, |fed| + at, 0)
    {
      hide Taken, Configured;
      var limit := |input| - 256;
      at := start;
      while at < limit
        invariant start <= at < |input| && (at == start || start + 256 <= at)
        invariant Taken(k, SecretInUse(), acc, nbStripesSoFar, fed + input, |fed| + at)
      {
        SliceOfSuffix(fed, input, at, at + 256);
        acc, nbStripesSoFar := TakeBuffer(k, SecretInUse(), acc, nbStripesSoFar, input, at, fed + input, |fed| + at);
        at := at + 256;
      }
      TailCopied(buffer[..], fed, input, at);
      hide TailKept, Spliced;
      CopyInto(buffer, 192, input[at - 64..at]);
    }

    method ConsumeAndBuffer(input: seq<bv8>)
      requires Held() && bufferedSize + |input| > 256
      modifies this`fed, this`bufferedSize, this`acc, this`nbStripesSoFar, buffer
      ensures Held() && fed == old(fed) + input
    {
      hide Configured, Holds, Taken, TailKept;
      var at := CompleteBuffer(input);
      if at + 256 < |input| {
        at := ConsumeInput(input, at);
      }
      BufferRest(input, at);
    }

    /** XXH3_update: buffer what fits, otherwise complete and consume the buffer, consume
        the input 256 bytes at a time while more follows, and buffer the rest. */
    method Update(data: Option<seq<bv8>>) returns (e: ErrorCode)
      requires Ready()
      requires data.Some? ==> |data.value| < 0x1_0000_0000_0000_0000
      modifies this, buffer
      ensures Ready() && seed == old(seed) && extSecret == old(extSecret)
      ensures e == OK <==> data.Some?
      ensures fed == if data.Some? then old(fed) + data.value else old(fed)
    {
      hide Configured, Holds, Wrap64;
      if data == None { return ERROR; }
      var input := data.value;
      Wrap64Adds(|fed|, |input|);
      totalLen := Wrap64(totalLen + |input|);
      if bufferedSize + |input| <= 256 {
        BufferAll(input);
      } else {
        ConsumeAndBuffer(input);
      }
      return OK;
    }

    /** The last 64 bytes fed, part of which may be what the buffer kept of its previous load. */
    method LastStripe() returns (s: seq<bv8>)
      requires Held() && 240 < |fed|
      ensures s == fed[|fed| - 64..]
    {
      hide Absorb, StripesPerBlock;
      if bufferedSize >= 64 {
        s := buffer[bufferedSize - 64..bufferedSize];
      } else {
        var catchupSize := 64 - bufferedSize;
        s := buffer[256 - catchupSize..] + buffer[..bufferedSize];
      }
    }

    /** The whole stripes of the buffer that lie before its last byte. */
    method BufferedStripes() returns (a: Acc)
      requires Held() && 64 <= bufferedSize
      ensures a == Absorb(k, SecretInUse(), Progress(k.init, 0),
                          fed[..|fed| - bufferedSize + (bufferedSize - 1) / 64 * 64]).acc
    {
      hide Absorb, StripesPerBlock;
      var nbStripes := (bufferedSize - 1) / 64;
      ghost var c := |fed| - bufferedSize;
      ghost var chunk := buffer[..64 * nbStripes];
      assert chunk == fed[c..c + 64 * nbStripes];
      SplitAt(fed, c, c + 64 * nbStripes);
      AbsorbConcat(k, SecretInUse(), Progress(k.init, 0), fed[..c], chunk);
      var soFar;
      a, soFar := ConsumeStripes(k, acc, nbStripesSoFar, buffer[..], 0, nbStripes, SecretInUse());
      assert buffer[..][0..64 * nbStripes] == chunk;
    }

    /** XXH3_digest_long: works on copies, so the state can go on being fed. */
    method DigestLong() returns (a: Acc)
      requires Ready() && 240 < |fed|
      ensures a == FinalAcc(k, fed, SecretInUse())
    {
      hide Absorb, StripesPerBlock;
      StripesBeforeLast(|fed|, bufferedSize);
      var lastStripe := LastStripe();
      a := acc;
      if bufferedSize >= 64 {
        a := BufferedStripes();
      }
      a := k.accumulate(a, lastStripe, SecretInUse()[secretLimit - 7..secretLimit + 57]);
    }

    /** XXH3_64bits_digest: what the one-shot function of the same mode returns for
        everything fed, however it was cut into updates. */
    method Digest() returns (h: bv64)
      requires Ready() && |fed| < 0x1_0000_0000_0000_0000
      ensures seed != 0 ==> h == WithSeed(k, fed, seed)
      ensures seed == 0 ==> h == WithSecret(k, fed, extSecret.value)
    {
      hide StripesPerBlock, FinalAcc, Wrap64;
      Wrap64Exact(|fed|);
      var secret: Secret := SecretInUse();
      if totalLen > 240 {
        var a := DigestLong();
        return k.merge(a, secret[11..], totalLen);
      }
      assert buffer[..totalLen] == fed;
      if seed != 0 {
        return WithSeed(k, buffer[..totalLen], seed);
      }
      return WithSecret(k, buffer[..totalLen], secret);
    }
  }

  // ----- The documented protocol: reset once, update with each piece, digest -----

  method UpdateAll<Acc>(state: Xxh3State<Acc>, chunks: seq<seq<bv8>>)
    requires state.Ready() && state.fed == [] && |Concat(chunks)| < 0x1_0000_0000_0000_0000
    modifies state, state.buffer
    ensures state.Ready() && state.fed == Concat(chunks)
    ensures state.seed == old(state.seed) && state.extSecret == old(state.extSecret)
  {
    for i := 0 to |chunks|
      invariant state.Ready() && state.fed == Concat(chunks[..i])
      invariant state.seed == old(state.seed) && state.extSecret == old(state.extSecret)
    {
      ConcatPrefix(chunks, i);
      hide *;
      var e := state.Update(Some(chunks[i]));
    }
    ConcatPrefix(chunks, |chunks|);
    assert chunks[..|chunks|] == chunks;
  }

  /** For every seed and every way to cut the input, streaming is the one-shot hash. */
  method StreamWithSeed<Acc>(k: Kernels<Acc>, chunks: seq<seq<bv8>>, seed: bv64) returns (h: bv64)
    requires |Concat(chunks)| < 0x1_0000_0000_0000_0000
    ensures h == WithSeed(k, Concat(chunks), seed)
  {
    hide LongHash, Concat;
    var state := new Xxh3State(k, k.kSecret);
    state.ResetWithSeed(seed);
    UpdateAll(state, chunks);
    h := state.Digest();
  }

  /** The same under a caller's secret; one of fewer than 136 bytes is refused. */
  method StreamWithSecret<Acc>(k: Kernels<Acc>, chunks: seq<seq<bv8>>, secret: seq<bv8>)
      returns (h: Option<bv64>)
    requires |Concat(chunks)| < 0x1_0000_0000_0000_0000 && |secret| < 0x1_0000_0000_0000_0000
    ensures h == if |secret| < 136 then None else Some(WithSecret(k, Concat(chunks), secret))
  {
    hide LongHash, Concat;
    var state := new Xxh3State(k, k.kSecret);
    var e := state.ResetWithSecret(Some(secret), |secret|);
    if e == ERROR { return None; }
    UpdateAll(state, chunks);
    var d := state.Digest();
    h := Some(d);
  }
}
