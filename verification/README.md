# AEGIS in Dafny

AEGIS is a user-space SYN proxy. It answers SYNs with cookies, admits a connection when
a cookie comes back, splices the two TCP sequence spaces, and moves packets between two
NIC ports through burst containers. This project models the parts of it that compute
something difficult and proves what they promise.

| file | what it models |
|---|---|
| `XxhBlocks`, `Xxh32`, `Xxh64` | XXH32 and XXH64: one-shot hashes, streaming states, both finalizers |
| `Xxh3Short`, `Xxh3Secret`, `ConnectionHash` | the XXH3 paths for keys of 1 to 8 bytes, the connection-map hash and the cookie hash |
| `Xxh3Long`, `Xxh3Stream` | the XXH3 long-hash loop and streaming state, for arbitrary accumulate and scramble kernels |
| `Xxh3Kernels`, `Xxh3Vector`, `WideMultiply` | the scalar and SSE2 kernels on real accumulator arrays, and the portable 64x64 to 128 bit multiply |
| `KnownAnswers`, `LongAnswer` | known hash values: the test values that the xxHash project publishes, one connection, and 256 bytes through the long path |
| `Machine` | sums that wrap at 32 and 64 bits, and memcpy |
| `Checksum`, `TcpPacket` | the Internet checksum, and Ethernet/IPv4/TCP frames as bytes |
| `Cookie` | issuing and checking SYN cookies, and the loop that ticks every 64 seconds |
| `Mbufs`, `PacketContainer` | numbered packet buffers, and the two-dimensional slot arrays that present one flat list |
| `Connections`, `Treatment` | what one packet does to the connection table, and the treatment object that works on table, containers and buffers |
| `Ownership`, `Runs` | where every buffer is, and whole runs: any interleaving of polls, treated packets and sends |
| `Wire` | the bytes behind the headers over whole runs: what every sent packet looks like to its receiver |
| `DefenseLoop`, `Traces` | the thread's loop, and the run that every execution of it is |
| `FailingInputs` | an input for each condition below under which the code does less than promised |
| `Orbits`, `RandomNumberGenerator` | the xorshift generators and the orbits of their steps |

How it is modelled:

- A packet buffer is a number; its header lives in `Memory.headers`. Container slots and
  held lists are pointers to buffers, so a setter writes through to the one buffer that
  every alias sees. That no two live places share a buffer is proved, not built in.
- Code that updates objects or arrays is a class or a method with loops, proved against a
  function of the old state. `Treatment.World` is that state for the whole program; the
  methods of `Treatment.Treatment` and `DefenseLoop.DefenseThread` compute exactly its
  functions. `Traces.LoopIsRun` shows that the states the loop passes through form a run,
  so what `Runs` proves of runs holds of the loop.
- The NIC is a parameter: which packets arrive, and how many of each burst it takes. The
  clock may tick between any two packets. Lemmas about cookies hold for any hash of
  timestamp and connection; the thread's constructor uses `Cookie.ProgramHash`.
- Integers are mathematical; every wrap-around that the code relies on (16, 32 and 64
  bit) is written out or uses a bit-vector type.

Where the code does less than its documentation or its checksum routine promises, the
model follows the code and the exact condition is proved:

- A rewritten packet passes the receiver's TCP check if and only if its IP header is 20
  bytes long (`TcpPacket.RecalculatedVerifies`): the sender's pseudo-header takes the
  total length minus 20, so IP options are counted as payload. Any packet with one word of
  options fails (`FailingInputs.OptionsBreakTheChecksum`).
- A SYN-ACK from inside dereferences a null pointer if and only if the entry of its
  connection was made by a SYN-ACK from outside or a plain ACK from inside, however much
  happened since (`Runs.CrashFromPackets`): such an entry holds a null pointer, because the
  constructor of `Info` always pushes its argument. An ACK and a SYN-ACK of one unknown
  connection are enough (`FailingInputs.CrashInput`).
- A plain ACK from outside, of a known connection, goes on if and only if it is not queued:
  nothing is held for the connection, or the ACK closes it (`Runs.EarlyAckGoesOn`). A held
  packet goes on if and only if it is the first one held and a SYN-ACK comes from inside
  before the entry is erased (`Runs.HeldGoesOn`); all others are never sent and never freed,
  past the erasure too (`Runs.QueuedForGood`). So behind a null pointer none goes on, and
  behind the packet that showed the cookie only that one does. Two plain ACKs of one
  connection in one poll are enough (`FailingInputs.SecondAckNeverSent`,
  `FailingInputs.HeldInput`).
- On a spliced connection a FIN is translated unless it repeats a FIN of its own direction
  before the peer's FIN (`Connections.FinTranslated`); `FailingInputs.RepeatedFinPasses`
  gives a run from the start to such a FIN. While a connection waits no FIN is translated
  (`Connections.WaitingFinPasses`).
- The SYN-ACK that splices a connection leaves with the internal host's own sequence number
  (`Runs.AnsweredOutside`, `FailingInputs.SynAckPasses`). Exactly which packets of a spliced
  connection leave untranslated is `Connections.SplicedExactly`: SYN-ACKs in either
  direction, a SYN from inside, a RST from outside, a repeated FIN, and packets that have
  none of these flags and no ACK.
- The interval form of the 16-bit generator lands in its interval if and only if the lower
  limit is the smaller one (`RandomNumberGenerator.IntervalForm`, `FailingInputs.IntervalInput`).
- `take_packet` counts a removal twice, so the counter is not the number of holes. It is zero
  if and only if there is no hole, which is part of the container's invariant
  (`PacketContainer.Container.Valid`).

`dafny verify dfyconfig.toml` checks everything.

## Model

| member | source | states |
|---|---|---|
| Xxh3Short.AvalancheCancels | include/Treatment/xxhash.hpp:2300-2308 | the XXH64 avalanche is a bijection: an explicit inverse cancels it on both sides |
| Xxh3Short.SpreadSquares | include/Treatment/xxhash.hpp:3257-3266 | squaring the xor of three rotations three times gives a rotation by 8 |
| Xxh3Short.RrmxmxCancels | include/Treatment/xxhash.hpp:3257-3266 | for length 4 the rrmxmx mixer is a bijection, with its inverse given |
| Xxh3Short.Len1to3Injective | include/Treatment/xxhash.hpp:3301-3321 | for one seed, equal hashes of keys of any lengths 1 to 3 mean equal keys, lengths included |
| Xxh3Short.Len4Injective | include/Treatment/xxhash.hpp:3323-3337 | for one seed, equal hashes of 4-byte keys mean equal keys |
| Xxh3Short.Len1to3PermutesSeeds | include/Treatment/xxhash.hpp:3301-3321 | for one key the 1-to-3-byte hash permutes the seeds: exactly one seed gives each hash value |
| Xxh3Short.Len4PermutesSeeds | include/Treatment/xxhash.hpp:3323-3337 | for one key the 4-byte hash permutes the seeds, through the byte-swap that folds the seed |
| ConnectionHash.LayerInjective | include/Treatment/xxhash.hpp:4378-4421 | one XXH3 layer: with equal hashes, the seeds agree exactly when the keys agree |
| ConnectionHash.NeighboursNeverCollide | include/Treatment/Treatment.hpp:151-159 | two connection keys that differ in exactly one of the four fields never have the same map hash |
| ConnectionHash.CookieHashesApart | include/Treatment/Treatment.hpp:814-824 | before it is cut to 32 bits, the 64-bit cookie hash changes whenever exactly one of secret, timestamp and the four fields changes |
| ConnectionHash.CookieHashPermutesSecrets | include/Treatment/Treatment.hpp:814-824 | for one timestamp and connection every 64-bit value is the uncut cookie hash under exactly one secret |
| ConnectionHash.CookieHashBalanced | include/Treatment/Treatment.hpp:810-825 | the secrets that give one 32-bit cookie hash are numbered one to one by the cut half: 2^32 of them for each hash |
| ConnectionHash.CutHashesCollide | include/Treatment/Treatment.hpp:810-825 | the cut hash alone does not tell secrets apart: for every value two different secrets are given |
| WideMultiply.SumsNeverOverflow | include/Treatment/xxhash.hpp:3204-3206 | neither `cross` nor `upper` exceeds 64 bits, for all operands |
| WideMultiply.MultiplyIsExact | include/Treatment/xxhash.hpp:3198-3212 | high half times 2^64 plus low half is the exact product, although every step wraps |
| Xxh3Secret.SecretIsTable | include/Treatment/xxhash.hpp:3041-3056 | the built-in secret is the table of bytes, in the order in which it is written |
| KnownAnswers.Xxh32OfSanity14 | include/Treatment/xxhash.hpp:1920-1956 | the published XXH32 of the first 14 sanity bytes: words and single bytes |
| KnownAnswers.Xxh32OfNobody | include/Treatment/xxhash.hpp:1920-1956 | the published XXH32 of a text of 39 bytes: two blocks, a word and three bytes |
| KnownAnswers.Xxh64OfSanity14 | include/Treatment/xxhash.hpp:2348-2388 | the published XXH64 of the 14 sanity bytes: eight bytes, a word and single bytes |
| KnownAnswers.Xxh64OfNobody | include/Treatment/xxhash.hpp:2348-2388 | the published XXH64 of the text: a block, a word and three bytes |
| KnownAnswers.Xxh3OfByte | include/Treatment/xxhash.hpp:3301-3321 | the published XXH3 of one zero byte with the sanity seed |
| KnownAnswers.Xxh3OfSixBytes | include/Treatment/xxhash.hpp:3323-3337 | the published XXH3 of the first six sanity bytes with that seed |
| KnownAnswers.MyHashOfConnection | include/Treatment/Treatment.hpp:151-159 | the map hash of one connection, layer by layer in the source's order |
| KnownAnswers.CookieOfConnection | include/Treatment/Treatment.hpp:810-825 | its cookie hash under one secret and timestamp, before and after the cut |
| LongAnswer.LongHashOfCounting | include/Treatment/xxhash.hpp:4218-4305 | the long hash of 256 bytes with the built-in secret, for all kernels that compute the specified lanes |
| LongAnswer.SeededWords | include/Treatment/xxhash.hpp:4074-4136 | a seed is added to the even words of the secret and taken from the odd ones |
| Xxh3Long.Accumulate | include/Treatment/xxhash.hpp:4201-4216 | the stripe loop equals the recursive accumulation of the stripes, for any kernel |
| Xxh3Long.BlockRefines | include/Treatment/xxhash.hpp:4218-4236 | accumulating up to one block and scrambling at its end is absorbing its stripes one at a time |
| Xxh3Long.HashLongInternalLoop | include/Treatment/xxhash.hpp:4218-4249 | the blocked one-shot loop leaves the accumulators of the stripe-by-stripe reference, for any kernels and any secret of at least 136 bytes |
| Xxh3Stream.ConsumeStripes | include/Treatment/xxhash.hpp:4574-4596 | consuming stripes across a block boundary is absorbing them one at a time |
| Xxh3Stream.Xxh3State.constructor | include/Treatment/xxhash.hpp:4492-4500 | a new state is ready for any reset |
| Xxh3Stream.Xxh3State.Reset | include/Treatment/xxhash.hpp:4541-4548 | after a reset nothing is fed and the default secret is in use |
| Xxh3Stream.Xxh3State.ResetWithSecret | include/Treatment/xxhash.hpp:4550-4559 | fails exactly for a missing secret or one shorter than 136 bytes |
| Xxh3Stream.Xxh3State.ResetWithSeed | include/Treatment/xxhash.hpp:4561-4569 | the secret belongs to the new seed even when its generation is skipped |
| Xxh3Stream.Xxh3State.Update | include/Treatment/xxhash.hpp:4601-4670 | appends exactly the input to what was fed and keeps the buffering invariant; an error exactly for a missing input |
| Xxh3Stream.Xxh3State.DigestLong | include/Treatment/xxhash.hpp:4680-4709 | the digest of a long stream has the accumulators of the one-shot hash of everything fed |
| Xxh3Stream.Xxh3State.LastStripe | include/Treatment/xxhash.hpp:4697-4708 | the last 64 bytes fed are found even when the buffer holds fewer |
| Xxh3Stream.Xxh3State.Digest | include/Treatment/xxhash.hpp:4715-4730 | equals the one-shot hash of everything fed, with seed or with secret |
| Xxh3Stream.StreamWithSeed | include/Treatment/xxhash.hpp:4561-4730 | for every split into updates, every seed and any kernels, streaming equals the one-shot hash |
| Xxh3Stream.StreamWithSecret | include/Treatment/xxhash.hpp:4550-4730 | the same for every secret; secrets shorter than 136 bytes are refused |
| Xxh3Kernels.AccumulateScalar | include/Treatment/xxhash.hpp:4039-4055 | the scalar loop, which updates two lanes a round, gives each lane its specified value |
| Xxh3Kernels.ScrambleScalar | include/Treatment/xxhash.hpp:4057-4072 | the scalar scramble gives each lane its specified value |
| Xxh3Kernels.AccumulateSse2 | include/Treatment/xxhash.hpp:3781-3814 | the SSE2 accumulate gives the same eight lanes as the scalar one |
| Xxh3Kernels.ScrambleSse2 | include/Treatment/xxhash.hpp:3816-3843 | the SSE2 scramble, with two 32-bit products per lane, gives the same lanes modulo 2^64 |
| Xxh3Kernels.ScrambleCancels | include/Treatment/xxhash.hpp:4057-4072 | a scramble is a bijection of each lane under every secret, with its inverse given |
| Xxh3Kernels.ScrambledOne | include/Treatment/xxhash.hpp:4057-4072 | one scrambled lane, as a number |
| Xxh3Vector.InitCustomSecretScalar | include/Treatment/xxhash.hpp:4074-4136 | the scalar generator writes the specified 192-byte secret |
| Xxh3Vector.InitCustomSecretSse2 | include/Treatment/xxhash.hpp:3845-3873 | the SSE2 generator, which adds the negated seed, writes the same secret |
| Xxh3Vector.HashLongInternalLoop | include/Treatment/xxhash.hpp:4218-4249 | in place, all eight accumulators are the reference's with either kernel set |
| Xxh3Vector.HashLong64 | include/Treatment/xxhash.hpp:4289-4305 | the long hash on accumulator arrays is the same with either kernel set and equals the reference |
| Xxh3Vector.HashLong64WithSeed | include/Treatment/xxhash.hpp:4344-4372 | the same with a seed, each kernel set using its own secret generator |
| XxhBlocks.ChewTwice | include/Treatment/xxhash.hpp:2031-2070 | running blocks over two portions: the rest of the first is the head of the second |
| XxhBlocks.Feed | include/Treatment/xxhash.hpp:2031-2074 | filling the buffer, running whole blocks and keeping the rest is running buffer and input together |
| Xxh32.FinalizeRerolled | include/Treatment/xxhash.hpp:1849-1860 | the rerolled loop mixes the last `len % 16` bytes |
| Xxh32.FinalizeUnrolled | include/Treatment/xxhash.hpp:1861-1910 | the unrolled switch with its fall-through gives the same result for every length |
| Xxh32.OneShot | include/Treatment/xxhash.hpp:1920-1956 | the one-shot loop with either finalizer computes the specified hash |
| Xxh32.CountedMore | include/Treatment/xxhash.hpp:2030-2031 | the `large_len` flag says whether 16 bytes were ever fed, through every wrap of the 32-bit length |
| Xxh32.Xxh32State.Update | include/Treatment/xxhash.hpp:2016-2078 | appends exactly the input to what was fed; an error exactly for a missing input |
| Xxh32.Xxh32State.Digest | include/Treatment/xxhash.hpp:2081-2097 | equals the one-shot hash of everything fed, also past 2^32 bytes |
| Xxh32.Stream | include/Treatment/xxhash.hpp:2001-2097 | for every split and seed, streaming equals the one-shot hash |
| Xxh64.FinalizeLoops | include/Treatment/xxhash.hpp:2313-2341 | the three loops mix the last `len % 32` bytes |
| Xxh64.OneShot | include/Treatment/xxhash.hpp:2348-2388 | the one-shot loop computes the specified hash |
| Xxh64.Xxh64State.Update | include/Treatment/xxhash.hpp:2446-2505 | appends exactly the input to what was fed; an error exactly for a missing input |
| Xxh64.Xxh64State.Digest | include/Treatment/xxhash.hpp:2508-2530 | equals the one-shot hash of everything fed |
| Xxh64.Stream | include/Treatment/xxhash.hpp:2432-2530 | for every split and seed, streaming equals the one-shot hash |
| Checksum.RawCksum | test/libdpdk_dummy/include/rte_ip.h:45-71 | the four-way unrolled loop adds the plain sum of all 16-bit words, odd lengths included, modulo 2^32 |
| Checksum.SumExact | test/libdpdk_dummy/include/rte_ip.h:45-71 | up to 65535 bytes the 32-bit sum never wraps |
| Checksum.ReduceIsResidue | test/libdpdk_dummy/include/rte_ip.h:39-43 | two folds always fit 16 bits and keep the sum's residue modulo 65535 |
| Checksum.RawCksumReduced | test/libdpdk_dummy/include/rte_ip.h:73-78 | the reduced checksum is the residue of the plain word sum |
| Checksum.ByteOrderIndependent | test/libdpdk_dummy/include/rte_ip.h:39-78 | the folded sum over byte-swapped words is the byte-swapped folded sum |
| Checksum.SumIsNumber | test/libdpdk_dummy/include/rte_ip.h:39-78 | the sum of the words has the residue of the whole buffer read as one number |
| Checksum.ComplementCompletes | test/libdpdk_dummy/include/rte_ip.h:80-84 | adding the complement of a sum's residue always folds to all ones |
| TcpPacket.FillPayloadlessTcpPacket | include/PacketDissection/PacketInfoIpv4Tcp.hpp:173-190 | the field stores leave exactly the 54 bytes of the frame, and the rest of the buffer as it was |
| TcpPacket.FillIpHdr | include/PacketDissection/PacketInfoIpv4.hpp:95-109 | the IPv4 header bytes, in whatever order they are stored |
| TcpPacket.FillTcpHeader | include/PacketDissection/PacketProtTcp.hpp:191-206 | the TCP header bytes, in whatever order they are stored; what they mean is `TcpPacket.FrameIsPayloadless` and `TcpPacket.ParseReads` |
| TcpPacket.FrameIsPayloadless | include/PacketDissection/PacketInfoIpv4Tcp.hpp:173-190 | a built frame is IPv4, whole, with 128 hops to live, TCP without urgent data, and its total length is that of its two headers |
| TcpPacket.ParseReads | include/PacketDissection/PacketProtTcp.hpp:20-190 | where the getters look: each field is the big-endian number at its place in RFC 791 or RFC 793 |
| TcpPacket.Classified | include/PacketDissection/PacketInfoCreator.hpp:31-82 | exactly which frames are TCP, UDP or ICMP over IPv4, for all bytes, and where the layer-4 header lies |
| TcpPacket.BuildThenParse | include/PacketDissection/PacketInfoCreator.hpp:31-54 | a built frame parses as TCP over IPv4 at offset 34 and every getter returns the written value |
| TcpPacket.SetSeqNum | include/PacketDissection/PacketProtTcp.hpp:32-34 | the sequence number reads back; every other field and byte stays |
| TcpPacket.SetAckNum | include/PacketDissection/PacketProtTcp.hpp:43-45 | the acknowledgment number reads back; every other field and byte stays |
| TcpPacket.ComputeIpv4Cksum | test/libdpdk_dummy/include/rte_ip.h:80-84 | the complement of the residue over the header's own length |
| TcpPacket.ComputeUdpTcpCksum | test/libdpdk_dummy/include/rte_ip.h:112-139 | two reduced sums added and folded once are the residue of segment and pseudo-header together |
| TcpPacket.OtherChecksums | test/libdpdk_dummy/include/rte_ip.h:112-139 | zero for a total length shorter than its header; never zero for UDP, where the stored value still completes the sum |
| TcpPacket.RecalculateChecksums | include/PacketDissection/PacketInfoIpv4Tcp.hpp:197-204 | the in-place order of zeroing and storing gives the specified bytes |
| TcpPacket.RecalculatedVerifies | include/PacketDissection/PacketInfoIpv4Tcp.hpp:197-204 | for every content and length the IP header verifies, and the TCP segment verifies if and only if the IP header has 20 bytes |
| TcpPacket.RecalculationKeeps | include/PacketDissection/PacketInfoIpv4Tcp.hpp:197-204 | only the two checksum fields change |
| TcpPacket.BuiltPacketVerifies | include/PacketDissection/PacketInfoIpv4Tcp.hpp:173-204 | a built and recalculated packet passes both checks, still parses to its fields, and its two headers are the whole packet |
| Cookie.AcceptedValues | include/Treatment/Treatment.hpp:835-872 | exactly two values pass the check: the cookie of this tick and that of the tick before |
| Cookie.TruncatedKeepsHash | include/Treatment/Treatment.hpp:295-298 | a cookie carries the upper 24 bits of its hash and, below them, the timestamp |
| Cookie.AcceptedBits | include/Treatment/Treatment.hpp:835-872 | a value is accepted exactly if its low byte is this timestamp or the one before and its upper 24 bits are those of the hash at that timestamp |
| Cookie.Lifetime | include/Treatment/Treatment.hpp:793-872 | a cookie issued at tick n is accepted at tick m exactly when m - n is 0 or 1 modulo 256 |
| Cookie.TickLoop | source/main.cpp:60-69 | the loop ticks at exactly the specified samples, and the timestamp counts the ticks modulo 256 |
| Cookie.TicksSpaced | source/main.cpp:60-69 | two ticks are more than 64 * hz cycles apart, even when the 64-bit cycle register wraps |
| Cookie.TicksPrompt | source/main.cpp:60-69 | at every sample the last tick is at most 64 * hz cycles ago, as long as the register does not wrap |
| Cookie.TicksByCounts | source/main.cpp:60-69 | a tick has happened by a moment exactly if it is one of those counted |
| Cookie.TicksSoFar | source/main.cpp:60-69 | the loop's timestamp at each sample is that of all ticks up to its count |
| Cookie.PromptAckAccepted | source/main.cpp:60-69 | an ACK that returns within 64 * hz cycles of its SYN is always accepted, through timestamp and ack wrap |
| Cookie.ProgramAccepts | include/Treatment/Treatment.hpp:810-872 | the same for the program's own hash under its secret |
| Cookie.ProgramAcceptsExactly | include/Treatment/Treatment.hpp:810-872 | and only then: the upper 24 bits are those of the program's keyed hash of the connection |
| Mbufs.Memory.TxBurst | include/PacketDissection/PacketContainer.hpp:158-161 | the NIC is never offered a null pointer and takes a prefix of the offer |
| PacketContainer.Container.constructor | include/PacketDissection/PacketContainer.hpp:84-100 | an empty list, one row in use |
| PacketContainer.Container.PollPackets | include/PacketDissection/PacketContainer.hpp:123-140 | the list is exactly what the NIC delivered; live buffers it held before are overwritten |
| PacketContainer.Container.DropPacket | include/PacketDissection/PacketContainer.hpp:214-233 | out of bounds nothing happens; otherwise the slot is empty, its buffer freed, all else the same |
| PacketContainer.Container.TakePacket | include/PacketDissection/PacketContainer.hpp:253-268 | returns the slot's packet and empties the slot without freeing |
| PacketContainer.Container.AddPacket | include/PacketDissection/PacketContainer.hpp:286-300 | appends to the flat list, opening a new row when the last is full |
| PacketContainer.Container.GetEmptyPacket | include/PacketDissection/PacketContainer.hpp:337-351 | appends a newly allocated buffer to the flat list |
| PacketContainer.Container.GetPacketAtIndex | include/PacketDissection/PacketContainer.hpp:312-321 | returns the slot of the flat list, never a stale one, and out of bounds the error |
| PacketContainer.Container.ReorderRow | include/PacketDissection/PacketContainer.hpp:473-490 | compaction in place keeps the live pointers of the row, in order, and only them |
| PacketContainer.Container.ReorderMbufArrays | include/PacketDissection/PacketContainer.hpp:471-492 | every row in use is packed |
| PacketContainer.Container.EmptyContainer | include/PacketDissection/PacketContainer.hpp:529-551 | no buffer pointer is left, also when rows were shrunk before |
| PacketContainer.Container.SendPackets | include/PacketDissection/PacketContainer.hpp:148-181 | the live buffers are offered row by row, the unaccepted ones freed, the sum is the number accepted, and every slot is null afterwards |
| PacketContainer.SendConserves | include/PacketDissection/PacketContainer.hpp:148-181 | each live buffer is accepted or freed exactly once; a NIC that takes everything gets them in insertion order |
| Connections.FlagBits | include/Treatment/Treatment.hpp:30-38 | the flags are the bits of section 3.1 of RFC 793 |
| Connections.OneKey | include/Treatment/Treatment.hpp:345-348 | both directions of a connection have one key, which names the external host first |
| Connections.ToInsideProgress | include/Treatment/Treatment.hpp:251-540 | a packet to the inside changes at most its own entry: it starts with no flag set, never loses a flag, leaves only on RST or on a non-FIN ACK after both FINs |
| Connections.ToOutsideProgress | include/Treatment/Treatment.hpp:575-779 | the same for a packet to the outside |
| Connections.ToInsideExactly | include/Treatment/Treatment.hpp:257-540 | exactly when a packet to the inside makes or erases its entry, which flags it sets, and when it joins the held list |
| Connections.ToOutsideExactly | include/Treatment/Treatment.hpp:583-779 | the same for a packet to the outside, with the release of the held list |
| Connections.StraysDropped | include/Treatment/Treatment.hpp:360-365 | exactly which packets are dropped unanswered, which SYNs get a cookie and which ACKs a RST |
| Connections.ProgressKeepsClosing | include/Treatment/Treatment.hpp:351-408 | an acknowledgment stays expected exactly after FINs in both directions |
| Connections.SynIsStateless | include/Treatment/Treatment.hpp:283-336 | a SYN leaves the table alone; its answer has swapped endpoints, acknowledges the SYN, keeps its window, and its sequence number carries the timestamp and 24 bits of the hash, good for this tick and the next |
| Connections.HandshakeAdmits | include/Treatment/Treatment.hpp:410-473 | the ACK that completes the handshake is admitted; the SYN sent inside is that ACK, addresses and window included, with the client's first sequence number, acknowledgment number 123 and only SYN set |
| Connections.OnlyCookiesAdmit | include/Treatment/Treatment.hpp:418-500 | without an entry an ACK is admitted exactly when the number before the acknowledged one shows the connection's hash under this timestamp or the one before; otherwise the table stays and a RST for its connection is made |
| Connections.CreatedFrom | include/Treatment/Treatment.hpp:454-497 | every field of the SYN and of the RST that an ACK leads to |
| Connections.OpenedToInside | include/Treatment/Treatment.hpp:410-540 | while a connection waits, packets from outside leave its offset and its first held packet alone |
| Connections.OpenedToOutside | include/Treatment/Treatment.hpp:583-651 | the first SYN-ACK from inside sets the offset to cookie - isn modulo 2^32; no other packet from inside moves it |
| Connections.SplicedToInside | include/Treatment/Treatment.hpp:338-540 | packets to the inside never change the offset of a spliced connection |
| Connections.SplicedToOutside | include/Treatment/Treatment.hpp:583-779 | packets to the outside never change it either, further SYN-ACKs included |
| Connections.InsideExactly | include/Treatment/Treatment.hpp:257-540 | what becomes of any packet from outside, for every flag byte and every entry |
| Connections.OutsideExactly | include/Treatment/Treatment.hpp:583-779 | what becomes of any packet from inside, with the numbers of a release |
| Connections.SplicedExactly | include/Treatment/Treatment.hpp:257-540 | on a spliced connection, exactly which packets are translated in each direction, between cookie + k and isn + k; all others pass unchanged, but for an answered SYN |
| Connections.SplicedTranslates | include/Treatment/Treatment.hpp:506-540 | on a spliced connection every non-SYN, non-RST, non-FIN ACK maps ack cookie + k to isn + k inward and seq isn + k to cookie + k outward |
| Connections.FinTranslated | include/Treatment/Treatment.hpp:351-408 | on a spliced connection a FIN is translated unless it repeats its direction's FIN before the peer's; then it passes unchanged |
| Connections.WaitingFinPasses | include/Treatment/Treatment.hpp:351-408 | on a connection that waits for its SYN-ACK a FIN keeps its numbers in both directions |
| Treatment.StepToInsideKeeps | include/Treatment/Treatment.hpp:236-257 | treating slot i changes no other slot and adds at most one packet to each container |
| Treatment.StepToOutsideKeeps | include/Treatment/Treatment.hpp:567-583 | the same towards the outside, where the container itself never grows |
| Treatment.Treatment.OnSynToInside | include/Treatment/Treatment.hpp:283-336 | the stores and container calls have the effect of the Reply verdict |
| Treatment.Treatment.OnFinToInside | include/Treatment/Treatment.hpp:351-408 | flags, rewriting or drop as judged |
| Treatment.Treatment.AdmitConnection | include/Treatment/Treatment.hpp:430-473 | allocating the SYN before taking the ACK leaves the ACK held, its slot empty and the SYN at the end |
| Treatment.Treatment.OnAckToInside | include/Treatment/Treatment.hpp:410-540 | admission, refusal, close, queueing and translation as judged |
| Treatment.Treatment.TreatPacketToInside | include/Treatment/Treatment.hpp:251-541 | one round of the loop is one step of the whole state |
| Treatment.Treatment.TreatPacketsToInside | include/Treatment/Treatment.hpp:231-545 | every polled slot is treated once and in order while both containers grow |
| Treatment.Treatment.ReleaseHeld | include/Treatment/Treatment.hpp:604-646 | the first held packet goes inside with ack isn + 1, the others are adjusted and forgotten, the list is cleared; fails exactly on a null pointer |
| Treatment.Treatment.OnSynAckToOutside | include/Treatment/Treatment.hpp:583-651 | drop, release or nothing as judged |
| Treatment.Treatment.OnFinToOutside | include/Treatment/Treatment.hpp:681-735 | flags, rewriting or drop as judged |
| Treatment.Treatment.OnAckToOutside | include/Treatment/Treatment.hpp:738-779 | new entry, close or translation as judged |
| Treatment.Treatment.TreatPacketsToOutside | include/Treatment/Treatment.hpp:560-784 | every polled slot is treated once and in order, up to a crash if there is one |
| Ownership.HeldOne | include/Treatment/Treatment.hpp:101-135 | the buffers held by all connections can be counted from any entry |
| Ownership.ToInsideBalanced | include/Treatment/Treatment.hpp:331-540 | the held lists gain exactly the taken packet, and what an erase forgets is accounted for |
| Ownership.ToOutsideBalanced | include/Treatment/Treatment.hpp:602-676 | the held lists lose exactly the released packet and what is forgotten |
| Ownership.StepToInsideOwned | include/Treatment/Treatment.hpp:251-541 | treating a packet keeps every buffer in exactly one place |
| Ownership.StepToOutsideOwned | include/Treatment/Treatment.hpp:575-780 | the same towards the outside |
| Ownership.PollOwned | include/PacketDissection/PacketContainer.hpp:123-140 | a poll keeps it, counting what it overwrites |
| Ownership.SendOwned | include/PacketDissection/PacketContainer.hpp:148-181 | a send keeps it, whatever the NIC accepts |
| Ownership.SlotsApart | include/PacketDissection/PacketContainer.hpp:253-268 | a buffer in a slot is held by no connection and waits in no other container |
| Ownership.HeldIsNowhereElse | include/Treatment/Treatment.hpp:524-530 | a held buffer has not been sent and waits in no slot |
| Ownership.HeldApart | include/Treatment/Treatment.hpp:524-530 | no buffer is held by two connections |
| Runs.RunReachable | include/Treatment/Treatment.hpp:231-784 | in every state of every run: one place per buffer, the closing invariant, and null only as the first held pointer |
| Runs.NextKeepsEntry | include/Treatment/Treatment.hpp:338-408 | over any step an entry keeps its flags, or leaves because of a packet of its own connection that may end it |
| Runs.CrashExactly | include/Treatment/Treatment.hpp:604-617 | in a reachable state a packet from inside crashes exactly when it is a SYN-ACK for an entry whose first held pointer is null |
| Runs.InsideFrees | include/Treatment/Treatment.hpp:331-499 | exactly which packets to the inside are freed; of a known connection only a SYN |
| Runs.OutsideFrees | include/Treatment/Treatment.hpp:600-692 | exactly which packets to the outside are freed; of a known connection none |
| Runs.Birth | include/Treatment/Treatment.hpp:126-134 | an entry is made by a cookie, and then holds a packet first, or by a SYN-ACK from outside or a plain ACK from inside, and then holds a null pointer first |
| Runs.HeadStays | include/Treatment/Treatment.hpp:524-530 | while the entry stays its first held pointer does not turn null or stop being null; under a null one packets are only added |
| Runs.HeadDecidedAtBirth | include/Treatment/Treatment.hpp:126-134 | over any run the first held pointer is null exactly when the step that made the entry held no packet |
| Runs.CrashFromPackets | include/Treatment/Treatment.hpp:604-617 | from the start, the next packet from inside crashes exactly when it is a SYN-ACK whose entry was made by a SYN-ACK from outside or a plain ACK from inside |
| Runs.PlainAckStep | include/Treatment/Treatment.hpp:506-540 | a plain ACK from outside of a known connection: queued, and nothing else changes, or left in its slot with its number translated |
| Runs.NullHeadedQueues | include/Treatment/Treatment.hpp:524-530 | for an entry whose first held pointer is null every plain ACK from outside, short of one that ends it, is taken from its slot and queued |
| Runs.BehindNext | include/Treatment/Treatment.hpp:604-646 | a buffer held behind another pointer stays there or is forgotten, whatever the next step is |
| Runs.QueuedForGood | include/Treatment/Treatment.hpp:604-646 | over every run, past the entry's erasure too, no buffer held behind another pointer is sent, freed or put into a slot again |
| Runs.EarlyAckGoesOn | include/Treatment/Treatment.hpp:506-540 | over every run, a plain ACK from outside of a known connection goes on if and only if it is not queued when it is treated |
| Runs.HeadNext | include/Treatment/Treatment.hpp:604-637 | the first held buffer stays first, is forgotten with its entry, or goes on at a SYN-ACK from inside |
| Runs.HeldGoesOn | include/Treatment/Treatment.hpp:604-646 | over every run, a held buffer goes on if and only if it is the first held one and a SYN-ACK comes from inside before its entry is erased |
| Runs.RestAdjusted | include/Treatment/Treatment.hpp:638-644 | the packets held behind the first have their acknowledgment number moved by the new offset, each once |
| Runs.AckOfUnknown | include/Treatment/Treatment.hpp:418-500 | an ACK for an unknown connection is held and followed by a SYN, or freed and followed by a RST, at the end of the packets to the inside; nothing else changes |
| Runs.AdmissionOpens | include/Treatment/Treatment.hpp:427-473 | an accepted cookie opens the connection with that cookie |
| Runs.AnsweredOutside | include/Treatment/Treatment.hpp:604-637 | the SYN-ACK for a waiting connection splices it and re-emits the held ACK with isn + 1; it and all other packets to the outside stay as they are |
| Runs.OpenedNext | include/Treatment/Treatment.hpp:583-648 | a waiting connection goes on waiting exactly as long as no SYN-ACK for it comes from inside; the one that comes splices it at cookie minus its sequence number isn and re-emits the held ACK with isn + 1 |
| Runs.SplicedNext | include/Treatment/Treatment.hpp:410-779 | no step changes the offset of a spliced connection |
| Runs.SplicedRun | include/Treatment/Treatment.hpp:410-779 | over every run that keeps the entry: no SYN-ACK from inside so far and it waits, or the first one's sequence number isn fixes the offset at cookie - isn for good |
| Runs.InwardInMemory | include/Treatment/Treatment.hpp:532-539 | in a spliced state the packet's own buffer is rewritten from cookie + k to isn + k and nothing else changes |
| Runs.OutwardInMemory | include/Treatment/Treatment.hpp:770-778 | and outward from isn + k to cookie + k |
| Runs.SynBurstIsStateless | include/Treatment/Treatment.hpp:231-336 | any burst of SYNs leaves the table as it was, frees each packet and appends one SYN-ACK per packet in order |
| Wire.FieldsTell | include/PacketDissection/PacketProtTcp.hpp:20-206 | the byte-level fields determine the header the treatment works on |
| Wire.CarriesMeans | include/PacketDissection/PacketProtTcp.hpp:20-190 | each field of a carried header is the big-endian number at its place in RFC 791 or RFC 793, MAC addresses included |
| Wire.AckWrittenCarries | include/Treatment/Treatment.hpp:536-538 | after set_ack_num and recalculate_checksums the bytes read as the rewritten header, and the receiver's checks pass as far as its IP options allow |
| Wire.SeqWrittenCarries | include/Treatment/Treatment.hpp:673-675 | the same for set_seq_num |
| Wire.CreatedCarries | include/Treatment/Treatment.hpp:314-320 | a created packet reads as its header, has no IP options, is nothing but its two headers, and passes both checks |
| Wire.RestKeeps | include/Treatment/Treatment.hpp:638-644 | rewriting the other held packets one after another keeps every buffer's bytes and header in step |
| Wire.NextFaithful | include/Treatment/Treatment.hpp:231-784 | after every step each buffer's bytes read as its header, created and rewritten ones verify, and all others are as they came |
| Wire.WiredRunIsRun | include/Treatment/Treatment.hpp:231-784 | so do they in every state of every run |
| Wire.SentVerifies | include/PacketDissection/PacketInfoIpv4Tcp.hpp:197-204 | over every run, each sent packet reads as the header the treatment left; a created one is nothing but its two headers and passes both checks, a rewritten one passes the IP check and, exactly without IP options, the TCP check, and any other is byte for byte what arrived |
| Wire.RunHasBytes | include/PacketDissection/PacketInfoCreator.hpp:31-54 | every run from the empty start can be followed on bytes |
| DefenseLoop.InsideHalfRests | source/Threads/DefenseThread.cpp:47-58 | polling, treating and sending towards the inside ends with empty containers and nothing abandoned |
| DefenseLoop.OutsideHalfRests | source/Threads/DefenseThread.cpp:59-69 | the same towards the outside |
| DefenseLoop.RunsAbandonNothing | source/Threads/DefenseThread.cpp:43-76 | over every run each buffer is in exactly one place, containers are empty at every poll, and no poll overwrites a buffer |
| Traces.InsideTraceIsRun | include/Treatment/Treatment.hpp:231-545 | treating the packets to the inside passes through the states of a run |
| Traces.OutsideTraceIsRun | include/Treatment/Treatment.hpp:560-784 | the same towards the outside, up to the state whose next packet crashes if there is one |
| Traces.LoopIsRun | source/Threads/DefenseThread.cpp:43-76 | every execution of the loop is a run from its starting state to its outcome |
| Traces.LoopSplices | source/Threads/DefenseThread.cpp:43-76 | from any state of the loop in which a connection waits, inside a round too: it waits until the first SYN-ACK from inside and is spliced with that one's number ever after |
| Traces.LoopCloses | source/Threads/DefenseThread.cpp:43-76 | in every state of the loop the run invariants hold, and an entry is lost only to a packet of its own connection that may end it |
| Traces.LoopCrashes | source/Threads/DefenseThread.cpp:43-76 | a loop that starts empty goes down only on a SYN-ACK from inside for an entry made without a cookie |
| FailingInputs.UnknownSynAckCrashes | include/Treatment/Treatment.hpp:604-617 | one poll of an ACK and a SYN-ACK of the same unknown connection from inside crashes the program |
| FailingInputs.CrashInput | include/Treatment/Treatment.hpp:749-753 | two such packets, field by field |
| FailingInputs.OptionsBreakTheChecksum | test/libdpdk_dummy/include/rte_ip.h:104-106 | every TCP packet with one word of IP options is recognised, recalculated, and fails the receiver's TCP check |
| FailingInputs.ChecksumInput | test/libdpdk_dummy/include/rte_ip.h:104-106 | one such packet |
| FailingInputs.TwoAcksHeld | include/Treatment/Treatment.hpp:524-530 | two plain ACKs of one connection in one poll, the first with its cookie, are both held |
| FailingInputs.SecondAckNeverSent | include/Treatment/Treatment.hpp:604-646 | in every run from there the second is never sent, and the first exactly if a SYN-ACK comes from inside before the entry is erased |
| FailingInputs.HeldInput | include/Treatment/Treatment.hpp:524-530 | one such packet, sent twice |
| FailingInputs.SynAckPasses | include/Treatment/Treatment.hpp:604-646 | a run from the start, for any hash: the connection is spliced with offset 1, and the SYN-ACK waits to be sent with the number it came with |
| FailingInputs.RepeatedFinPasses | include/Treatment/Treatment.hpp:390-406 | a run from the start, for any hash: a spliced connection with offset 1, the first FIN translated and its repetition passed as it came |
| DefenseLoop.DefenseThread.constructor | source/Threads/DefenseThread.cpp:12-17 | everything starts empty, with the program's cookie hash |
| DefenseLoop.DefenseThread.Run | source/Threads/DefenseThread.cpp:27-79 | the loop over the real objects computes exactly the specified run; no count passes 65535 |
| Orbits.ReturnsToStart | include/RandomNumberGenerator.hpp:54-83 | a one-to-one step on n values comes back to every start within n calls |
| RandomNumberGenerator.StepsInvert | include/RandomNumberGenerator.hpp:54-83 | each of the three xorshift steps is a bijection with the given inverse |
| RandomNumberGenerator.FirstValues | include/RandomNumberGenerator.hpp:54-83 | the values after three given seeds |
| RandomNumberGenerator.StreamsArePeriodic | include/RandomNumberGenerator.hpp:54-83 | every seed's stream is purely periodic, and a seed other than zero never yields zero |
| RandomNumberGenerator.Generator.GenRdm16Bit | include/RandomNumberGenerator.hpp:54-59 | the field takes the next value of the stream |
| RandomNumberGenerator.Generator.GenRdm32Bit | include/RandomNumberGenerator.hpp:66-71 | the field takes the next value of the stream |
| RandomNumberGenerator.Generator.GenRdm64Bit | include/RandomNumberGenerator.hpp:78-83 | the field takes the next value of the stream |
| RandomNumberGenerator.Generator.GenRdm16BitInInterval | include/RandomNumberGenerator.hpp:39-47 | advances the stream; the result lies in [lower, upper) whenever lower is the smaller limit |
| RandomNumberGenerator.IntervalForm | include/RandomNumberGenerator.hpp:39-47 | lands in [lower, upper) for every seed if and only if lower is the smaller limit |
| RandomNumberGenerator.IntervalExactly | include/RandomNumberGenerator.hpp:39-47 | for every seed and limits, in either order: how far behind lower the value lies, modulo 2^16 |
| RandomNumberGenerator.IntervalReached | include/RandomNumberGenerator.hpp:46-46 | no value of the interval is left out |

## Left out

- DPDK, EAL, port and pool setup, the attacker, the CLI, the GUI, logging, configuration and statistics: input, output and plumbing.
- Inspection: the defence thread does not call it, and what it counts would only add easy members.
- PacketContainerLean and the MbufContainer classes: thinner copies of the packet container.
- UDP and ICMP headers, the TCP payload size and the IPv6 stubs: easy, or with swapped parameters between caller and callee.
- AVX2, AVX512, NEON and VSX kernels: the SSE2 argument again.
- The XXH3 paths for 9 to 240 bytes and for empty input: the streaming theorem takes them as an arbitrary function of the buffered bytes.
- The canonical representations and the 128-bit variants of the hashes, and `XXH_ACCEPT_NULL_INPUT_POINTER`.
- The inside of google::dense_hash_map: a map whose insert does not overwrite; its reserved empty and deleted keys are not treated specially.
- Exhaustion of the buffer pool: an allocation always yields a buffer.
- Data races on the timestamp: each packet step and each tick is atomic.
- `drop_packet` without a packet argument: it needs a live slot, and the treatment never calls it.
- PacketInfo objects as heap cells: a packet info is the buffer it describes, so leaks of the descriptors themselves are not modelled; nothing is claimed about descriptors past the end of the list.
- Fragments, IP headers shorter than 20 bytes, and TCP segments shorter than their header: the checksum theorems, and the polls of `Wire`, start where the two headers lie one after the other in the buffer.
- The swapped container arguments in `source/main.cpp:44`: containers are named by the role they play in the thread.
- PacketContainer.Container.AddPacket: needs fewer than 65535 slots in use, because the total is a 16-bit counter; the defence loop never has more than 64 per container.
- PacketContainer.Container.GetEmptyPacket: the same limit.
- Treatment.Treatment.TreatPacketsToOutside: after a crash nothing is said about the state.
- RandomNumberGenerator.Generator.GenRdm16BitInInterval: equal limits divide by zero in the source and are excluded.
- Xxh3Stream.Xxh3State.Digest: for streams of less than 2^64 bytes, the range of the total length.
- Xxh64.Xxh64State.Digest: the same range.
- ConnectionHash.CookieHashesApart: about the 64-bit value; the source returns its lower half, for which it is false (`ConnectionHash.CutHashesCollide`).
- ConnectionHash.CookieHashPermutesSecrets: about the 64-bit value; what remains of it for the lower half is `ConnectionHash.CookieHashBalanced`.
- Runs.CrashExactly: its condition is about the table; `Runs.CrashFromPackets` states it about the packets that came.
