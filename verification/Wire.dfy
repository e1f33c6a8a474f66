/** The bytes behind the headers: every buffer of a run carries the header that the
    treatment works on, and whatever the proxy creates or rewrites verifies. */
module Wire {
  import opened Checksum
  import opened ConnectionHash
  import opened Cookie
  import opened Mbufs
  import opened Connections
  import opened Treatment
  import opened Ownership
  import opened Runs
  import T = TcpPacket

  // ----- One packet -----

  type Word48 = x: int | 0 <= x < 0x1_0000_0000_0000

  function Num48(m: bv48): Word48 { m as int }

  /** The six bytes of a MAC address. */
  function MacBytes(n: Word48): T.Mac {
    T.Be16(n / 0x1_0000_0000) + T.Be32(n % 0x1_0000_0000)
  }

  function FieldsOf(h: Header): T.Fields {
    T.Fields(MacBytes(Num48(h.srcMac)), MacBytes(Num48(h.dstMac)), h.srcIp as int, h.dstIp as int,
             h.srcPort as int, h.dstPort as int, h.seqNum as int, h.ackNum as int, h.flags as int, h.window as int)
  }

  lemma {:induction false} MacTells(a: Word48, b: Word48)
    requires MacBytes(a) == MacBytes(b)
    ensures a == b
  {
    T.FieldsReadBack(a / 0x1_0000_0000, a % 0x1_0000_0000);
    T.FieldsReadBack(b / 0x1_0000_0000, b % 0x1_0000_0000);
    hide T.Be16, T.Be32, T.U16, T.U32;
    assert MacBytes(a)[..2] == MacBytes(b)[..2] && MacBytes(a)[2..] == MacBytes(b)[2..];
    assert MacBytes(a)[..2] == T.Be16(a / 0x1_0000_0000) && MacBytes(b)[..2] == T.Be16(b / 0x1_0000_0000);
    assert MacBytes(a)[2..] == T.Be32(a % 0x1_0000_0000) && MacBytes(b)[2..] == T.Be32(b % 0x1_0000_0000);
  }

  lemma {:induction false} NumbersTell(a: bv48, b: bv48, i: bv32, j: bv32, k: bv16, l: bv16, m: bv8, n: bv8)
    ensures a as int == b as int ==> a == b
    ensures i as int == j as int ==> i == j
    ensures k as int == l as int ==> k == l
    ensures m as int == n as int ==> m == n
  {
    assert a == (a as int) as bv48 && b == (b as int) as bv48;
    assert i == (i as int) as bv32 && j == (j as int) as bv32;
    assert k == (k as int) as bv16 && l == (l as int) as bv16;
    assert m == (m as int) as bv8 && n == (n as int) as bv8;
  }

  /** Different headers have different fields. */
  lemma {:induction false} FieldsTell(g: Header, h: Header)
    requires FieldsOf(g) == FieldsOf(h) && g.tcp == h.tcp
    ensures g == h
  {
    hide MacBytes;
    MacTells(Num48(g.srcMac), Num48(h.srcMac));
    MacTells(Num48(g.dstMac), Num48(h.dstMac));
    NumbersTell(g.srcMac, h.srcMac, g.srcIp, h.srcIp, g.srcPort, h.srcPort, g.flags, h.flags);
    NumbersTell(g.dstMac, h.dstMac, g.dstIp, h.dstIp, g.dstPort, h.dstPort, 0, 0);
    NumbersTell(0, 0, g.seqNum, h.seqNum, g.window, h.window, 0, 0);
    NumbersTell(0, 0, g.ackNum, h.ackNum, 0, 0, 0, 0);
  }

  /** Both headers and what the total length announces lie in the buffer, one after the other. */
  predicate Whole(s: seq<Byte>, l4: nat) {
    T.Laid(s, 14, l4) && l4 == 14 + T.HdrLen(s, 14) && T.HdrLen(s, 14) + 20 <= T.TotalLen(s, 14) && s[23] == 6
  }

  /** The parser sees TCP over IPv4 exactly if the header says so, and its getters read the header. */
  predicate Carries(s: seq<Byte>, h: Header) {
    && |s| >= 34
    && var p := T.CreatePktInfo(s);
    && (p.kind == T.IPv4TCP <==> h.tcp)
    && (h.tcp ==> Whole(s, p.l4) && T.Parse(s, p.l4) == FieldsOf(h))
  }

  function L4(s: seq<Byte>): nat
    requires |s| >= 34
  {
    T.CreatePktInfo(s).l4
  }

  /** The receiver's IP check passes, and its TCP check does exactly without IP options. */
  predicate Sound(s: seq<Byte>) {
    && |s| >= 34 && Whole(s, L4(s))
    && T.IpVerifies(s, 14) && (T.TcpVerifies(s, 14, L4(s)) <==> T.HdrLen(s, 14) == 20)
  }

  lemma {:induction false} MacNumber(n: Word48)
    ensures T.Number(MacBytes(n)) == n
  {
    var m := MacBytes(n);
    T.FieldsReadBack(n / 0x1_0000_0000, n % 0x1_0000_0000);
    T.NumberOf([], m[0]); T.NumberOf(m[..1], m[1]); T.NumberOf(m[..2], m[2]);
    T.NumberOf(m[..3], m[3]); T.NumberOf(m[..4], m[4]); T.NumberOf(m[..5], m[5]);
    assert m[..1] == [] + [m[0]] && m[..2] == m[..1] + [m[1]] && m[..3] == m[..2] + [m[2]];
    assert m[..4] == m[..3] + [m[3]] && m[..5] == m[..4] + [m[4]] && m == m[..5] + [m[5]];
    hide T.Number, MacBytes;
  }

  /** Sections 3.1 of RFC 791 and RFC 793: where in the bytes each field of the header lies. */
  lemma {:induction false} CarriesMeans(s: seq<Byte>, h: Header)
    requires Carries(s, h) && h.tcp
    ensures var l4 := L4(s);
      && T.Number(s[..6]) == h.dstMac as int && T.Number(s[6..12]) == h.srcMac as int
      && T.Number(s[26..30]) == h.srcIp as int && T.Number(s[30..34]) == h.dstIp as int
      && T.Number(s[l4..l4 + 2]) == h.srcPort as int && T.Number(s[l4 + 2..l4 + 4]) == h.dstPort as int
      && T.Number(s[l4 + 4..l4 + 8]) == h.seqNum as int && T.Number(s[l4 + 8..l4 + 12]) == h.ackNum as int
      && s[l4 + 13] as int == h.flags as int && T.Number(s[l4 + 14..l4 + 16]) == h.window as int
  {
    T.ParseReads(s, L4(s));
    MacNumber(Num48(h.srcMac));
    MacNumber(Num48(h.dstMac));
    hide T.Number, MacBytes, T.Parse, T.CreatePktInfo;
  }

  lemma {:induction false} SameLayout(s: seq<Byte>, t: seq<Byte>)
    requires |s| >= 34 && Whole(s, L4(s)) && |t| == |s| && t[..34] == s[..34]
    ensures Whole(t, L4(s)) && T.CreatePktInfo(t) == T.CreatePktInfo(s)
  {
    assert forall i :: 0 <= i < 34 ==> t[i] == t[..34][i] == s[..34][i] == s[i];
    assert T.TotalLen(t, 14) == T.TotalLen(s, 14) && T.HdrLen(t, 14) == T.HdrLen(s, 14);
  }

  /** Recalculated after a change behind the addresses, a packet keeps its layout and verifies. */
  lemma {:induction false} Recalculated(s: seq<Byte>, t: seq<Byte>)
    requires |s| >= 34 && Whole(s, L4(s)) && |t| == |s| && t[..34] == s[..34]
    ensures T.Laid(t, 14, L4(s))
    ensures var r := T.Rechecksummed(t, 14, L4(s));
      |r| == |s| && T.CreatePktInfo(r) == T.CreatePktInfo(s)
      && Sound(r) && T.Parse(r, L4(s)) == T.Parse(t, L4(s))
  {
    var l4 := L4(s);
    SameLayout(s, t);
    T.RecalculatedVerifies(t, 14, l4);
    T.RecalculationKeeps(t, 14, l4);
    hide T.Rechecksummed, T.IpVerifies, T.TcpVerifies, T.Parse, T.CreatePktInfo;
    T.SameParse(t, T.Rechecksummed(t, 14, l4), l4);
  }

  /** Set before the window, no field changes what Payloadless looks at. */
  lemma {:induction false} HeadersStay(s: seq<Byte>, t: seq<Byte>)
    requires |s| >= 34 && Whole(s, L4(s)) && |t| == |s| && t[..34] == s[..34] && t[L4(s) + 12..] == s[L4(s) + 12..]
    requires T.Laid(t, 14, L4(s)) && T.Payloadless(s)
    ensures T.Payloadless(T.Rechecksummed(t, 14, L4(s)))
  {
    T.RecalculationKeeps(t, 14, L4(s));
    hide T.Rechecksummed;
    assert L4(s) == 34;
    assert forall i :: 0 <= i < 34 ==> t[i] == t[..34][i] == s[..34][i] == s[i];
    assert t[46] == t[46..][0] && t[52] == t[46..][6] && t[53] == t[46..][7];
    assert s[46] == s[46..][0] && s[52] == s[46..][6] && s[53] == s[46..][7];
  }

  /** The header fields before the layer-4 header stay where a field of that one is set. */
  lemma {:induction false} FrontStays(s: seq<Byte>, l4: nat, v: T.Word32)
    requires 34 <= l4 && l4 + 20 <= |s|
    ensures T.AckSet(s, l4, v)[..34] == s[..34] == T.SeqSet(s, l4, v)[..34]
    ensures T.AckSet(s, l4, v)[l4 + 12..] == s[l4 + 12..] == T.SeqSet(s, l4, v)[l4 + 12..]
  {}

  /** set_ack_num and recalculate_checksums, on a buffer that holds a TCP packet */
  function AckWritten(s: seq<Byte>, ack: bv32): (r: seq<Byte>) {
    if |s| >= 34 && Whole(s, L4(s)) then
      FrontStays(s, L4(s), ack as int);
      Recalculated(s, T.AckSet(s, L4(s), ack as int));
      T.Rechecksummed(T.AckSet(s, L4(s), ack as int), 14, L4(s))
    else s
  }

  /** set_seq_num and recalculate_checksums */
  function SeqWritten(s: seq<Byte>, seqNum: bv32): (r: seq<Byte>) {
    if |s| >= 34 && Whole(s, L4(s)) then
      FrontStays(s, L4(s), seqNum as int);
      Recalculated(s, T.SeqSet(s, L4(s), seqNum as int));
      T.Rechecksummed(T.SeqSet(s, L4(s), seqNum as int), 14, L4(s))
    else s
  }

  /** A rewritten packet carries the rewritten header and verifies. */
  lemma {:induction false} AckWrittenCarries(s: seq<Byte>, h: Header, ack: bv32)
    requires Carries(s, h) && h.tcp
    ensures var r := AckWritten(s, ack); Carries(r, WithAck(h, ack)) && Sound(r)
  {
    FrontStays(s, L4(s), ack as int);
    Recalculated(s, T.AckSet(s, L4(s), ack as int));
    T.AckSetParses(s, L4(s), ack as int);
    hide T.Rechecksummed, T.AckSet, T.Parse, MacBytes, T.CreatePktInfo, T.IpVerifies, T.TcpVerifies;
  }

  lemma {:induction false} SeqWrittenCarries(s: seq<Byte>, h: Header, seqNum: bv32)
    requires Carries(s, h) && h.tcp
    ensures var r := SeqWritten(s, seqNum); Carries(r, WithSeq(h, seqNum)) && Sound(r)
  {
    FrontStays(s, L4(s), seqNum as int);
    Recalculated(s, T.SeqSet(s, L4(s), seqNum as int));
    T.SeqSetParses(s, L4(s), seqNum as int);
    hide T.Rechecksummed, T.SeqSet, T.Parse, MacBytes, T.CreatePktInfo, T.IpVerifies, T.TcpVerifies;
  }

  lemma {:induction false} AckWrittenStays(s: seq<Byte>, ack: bv32)
    ensures T.Payloadless(s) ==> T.Payloadless(AckWritten(s, ack))
  {
    hide T.Payloadless, T.Rechecksummed, T.AckSet, T.CreatePktInfo, T.IpVerifies, T.TcpVerifies, T.Parse;
    if |s| >= 34 && T.Payloadless(s) && Whole(s, L4(s)) {
      FrontStays(s, L4(s), ack as int);
      Recalculated(s, T.AckSet(s, L4(s), ack as int));
      HeadersStay(s, T.AckSet(s, L4(s), ack as int));
    }
  }

  lemma {:induction false} SeqWrittenStays(s: seq<Byte>, seqNum: bv32)
    ensures T.Payloadless(s) ==> T.Payloadless(SeqWritten(s, seqNum))
  {
    hide T.Payloadless, T.Rechecksummed, T.SeqSet, T.CreatePktInfo, T.IpVerifies, T.TcpVerifies, T.Parse;
    if |s| >= 34 && T.Payloadless(s) && Whole(s, L4(s)) {
      FrontStays(s, L4(s), seqNum as int);
      Recalculated(s, T.SeqSet(s, L4(s), seqNum as int));
      HeadersStay(s, T.SeqSet(s, L4(s), seqNum as int));
    }
  }

  /** fill_payloadless_tcp_packet and recalculate_checksums, in a buffer with more room behind. */
  function Created(h: Header, room: seq<Byte>): (r: seq<Byte>) {
    T.BuiltPacketVerifies(FieldsOf(h), room);
    T.Rechecksummed(T.Frame(FieldsOf(h)) + room, 14, 34)
  }

  /** A created packet carries its header, has no IP options, and verifies. */
  lemma {:induction false} CreatedCarries(h: Header, room: seq<Byte>)
    requires h.tcp
    ensures var r := Created(h, room); Carries(r, h) && Sound(r) && T.Payloadless(r)
  {
    var s := T.Frame(FieldsOf(h)) + room;
    T.FrameBytes(FieldsOf(h), room);
    T.BuiltPacketVerifies(FieldsOf(h), room);
    T.RecalculationKeeps(s, 14, 34);
    hide T.Frame, T.Rechecksummed, T.Parse, FieldsOf, T.IpVerifies, T.TcpVerifies;
  }

  // ----- All buffers -----

  /** The program's state with the bytes of every buffer: as they were when it got its packet,
      and as they are now; and which buffers the proxy filled or rewrote itself. */
  datatype Wired = Wired(
    w: World, first: seq<seq<Byte>>, bytes: seq<seq<Byte>>, created: set<nat>, rewritten: set<nat>)

  ghost predicate Good(x: Wired, id: nat)
    requires id < |x.w.mem| && id < |x.bytes| && id < |x.first|
  {
    && Carries(x.bytes[id], x.w.mem[id])
    && (id in x.created ==> Sound(x.bytes[id]) && T.Payloadless(x.bytes[id]))
    && (if id in x.rewritten then Sound(x.bytes[id]) else x.bytes[id] == x.first[id])
  }

  ghost predicate HeldTcp(conns: Table, mem: seq<Header>) {
    forall d, k :: d in conns && 0 <= k < |conns[d].held| && conns[d].held[k].Mbuf? ==>
      conns[d].held[k].id < |mem| && mem[conns[d].held[k].id].tcp
  }

  ghost predicate Aligned(x: Wired) {
    && |x.first| == |x.bytes| == |x.w.mem|
    && forall id :: id in x.created || id in x.rewritten ==> id < |x.bytes|
  }

  /** Every buffer carries the header the treatment works on; created and rewritten ones
      verify, and all others are as they came. */
  ghost predicate Faithful(x: Wired) {
    Aligned(x) && HeldTcp(x.w.conns, x.w.mem) && forall id: nat :: id < |x.bytes| ==> Good(x, id)
  }

  // ----- What the treatment does to the bytes -----

  ghost function Adds(y: Wired, s: seq<Byte>): Wired {
    y.(first := y.first + [s], bytes := y.bytes + [s], created := y.created + {|y.bytes|})
  }

  ghost function TreatedInside(x: Wired, hash: Hash, now: bv8, i: nat, room: seq<Byte>): Wired
    requires Aligned(x) && Sane(x.w) && i < |x.w.inside| && x.w.inside[i].Mbuf?
  {
    var id := x.w.inside[i].id;
    var h := x.w.mem[id];
    var y := x.(w := StepToInside(x.w, hash, now, i));
    if !h.tcp then y
    else
      match JudgeToInside(x.w.conns, hash, now, id, h).verdict
      case Rewrite(r) =>
        y.(bytes := x.bytes[id := AckWritten(x.bytes[id], r.ackNum)], rewritten := x.rewritten + {id})
      case Reply(r) => Adds(y, Created(r, room))
      case Admit(r) => Adds(y, Created(r, room))
      case Reset(r) => Adds(y, Created(r, room))
      case _ => y
  }

  ghost function RestWritten(bytes: seq<seq<Byte>>, mem: seq<Header>, rest: seq<Pointer>, offset: bv32)
      : (r: seq<seq<Byte>>)
    requires |bytes| == |mem| && Full(rest) && InRange(rest, |mem|)
    ensures |r| == |bytes|
    decreases |rest|
  {
    if rest == [] then bytes
    else
      var id := rest[0].id;
      var ack := Minus(mem[id].ackNum, offset);
      RestWritten(bytes[id := AckWritten(bytes[id], ack)], mem[id := WithAck(mem[id], ack)], rest[1..], offset)
  }

  ghost function HeldWritten(bytes: seq<seq<Byte>>, mem: seq<Header>, held: seq<Pointer>, isn: bv32, offset: bv32)
      : (r: seq<seq<Byte>>)
    requires |bytes| == |mem| && |held| > 0 && Full(held) && InRange(held, |mem|)
    ensures |r| == |bytes|
  {
    var id := held[0].id;
    var ack := Plus(isn, 1);
    RestWritten(bytes[id := AckWritten(bytes[id], ack)], mem[id := WithAck(mem[id], ack)], held[1..], offset)
  }

  ghost function Ids(held: seq<Pointer>): set<nat> { set k | 0 <= k < |held| && held[k].Mbuf? :: held[k].id }

  ghost function TreatedOutside(x: Wired, i: nat): Wired
    requires Aligned(x) && Sane(x.w) && i < |x.w.outside| && x.w.outside[i].Mbuf? && StepToOutside(x.w, i).Running?
  {
    var id := x.w.outside[i].id;
    var h := x.w.mem[id];
    var y := x.(w := StepToOutside(x.w, i).w);
    ReleasedAreReal(x.w.conns, x.w.mem, h);
    if !h.tcp then y
    else
      match JudgeToOutside(x.w.conns, x.w.mem, h).verdict
      case Rewrite(r) =>
        y.(bytes := x.bytes[id := SeqWritten(x.bytes[id], r.seqNum)], rewritten := x.rewritten + {id})
      case Release(held, isn, offset) =>
        y.(bytes := HeldWritten(x.bytes, x.w.mem, held, isn, offset),
           rewritten := x.rewritten + Ids(held))
      case _ => y
  }

  // ----- What it keeps -----

  /** One buffer is rewritten to carry another header. */
  ghost predicate Writes(x: Wired, y: Wired, id: nat, s: seq<Byte>, h: Header) {
    && id < |x.bytes| == |x.w.mem| && y.bytes == x.bytes[id := s] && y.w.mem == x.w.mem[id := h]
    && y.first == x.first && y.created == x.created && y.rewritten == x.rewritten + {id}
    && Carries(s, h) && Sound(s) && (T.Payloadless(x.bytes[id]) ==> T.Payloadless(s))
  }

  /** One buffer is created to carry a header. */
  ghost predicate Appends(x: Wired, y: Wired, s: seq<Byte>, h: Header) {
    && y.bytes == x.bytes + [s] && y.w.mem == x.w.mem + [h] && y.first == x.first + [s]
    && y.created == x.created + {|x.bytes|} && y.rewritten == x.rewritten
    && Carries(s, h) && Sound(s) && T.Payloadless(s)
  }

  ghost predicate AllGood(x: Wired) { Aligned(x) && forall id: nat :: id < |x.bytes| ==> Good(x, id) }

  lemma {:induction false} WritesKeep(x: Wired, y: Wired, id: nat, s: seq<Byte>, h: Header)
    requires AllGood(x) && Writes(x, y, id, s, h)
    ensures AllGood(y)
  {
    hide Carries, Sound;
    forall k: nat | k < |y.bytes| ensures Good(y, k) {
      assert Good(x, k);
    }
  }

  lemma {:induction false} AppendsKeep(x: Wired, y: Wired, s: seq<Byte>, h: Header)
    requires AllGood(x) && Appends(x, y, s, h)
    ensures AllGood(y)
  {
    hide Carries, Sound;
    forall k: nat | k < |y.bytes| ensures Good(y, k) {
      if k < |x.bytes| { assert Good(x, k); }
    }
  }

  lemma {:induction false} SameBytesKeep(x: Wired, y: Wired)
    requires AllGood(x) && y.w.mem == x.w.mem && y == x.(w := y.w)
    ensures AllGood(y)
  {
    hide Carries, Sound;
    forall k: nat | k < |y.bytes| ensures Good(y, k) {
      assert Good(x, k);
    }
  }

  /** Buffers are added, and none turns into something else than TCP or from it. */
  ghost predicate KeepsTcp(mem: seq<Header>, after: seq<Header>) {
    |mem| <= |after| && forall id :: 0 <= id < |mem| ==> after[id].tcp == mem[id].tcp
  }

  lemma {:induction false} HeldTcpLater(conns: Table, mem: seq<Header>, after: seq<Header>)
    requires HeldTcp(conns, mem) && KeepsTcp(mem, after)
    ensures HeldTcp(conns, after)
  {}

  lemma {:induction false} HeldTcpInside(conns: Table, mem: seq<Header>, hash: Hash, now: bv8, id: nat, h: Header)
    requires HeldTcp(conns, mem) && id < |mem| && mem[id].tcp
    ensures HeldTcp(JudgeToInside(conns, hash, now, id, h).conns, mem)
  {
    ToInsideProgress(conns, hash, now, id, h);
    ToInsideExactly(conns, hash, now, id, h);
    hide JudgeToInside, Has, Check, Minus, KeyToInside, Leaves, Starts, Advances, Closes;
  }

  lemma {:induction false} HeldTcpOutside(conns: Table, mem: seq<Header>, h: Header)
    requires HeldTcp(conns, mem) && HeldInRange(conns, |mem|)
    ensures HeldTcp(JudgeToOutside(conns, mem, h).conns, mem)
  {
    ToOutsideProgress(conns, mem, h);
    ToOutsideExactly(conns, mem, h);
    hide JudgeToOutside, HeldInRange, Has, KeyToOutside, Leaves, Starts, Advances, Closes;
  }

  lemma {:induction false} OnlyTheAck(info: Info, h: Header)
    ensures AckInward(info, h).Rewrite? && AckInward(info, h).h == WithAck(h, AckInward(info, h).h.ackNum)
  {
    hide Minus;
  }

  /** A packet from outside has at most its acknowledgment number changed. */
  lemma {:induction false} InsideRewrites(conns: Table, hash: Hash, now: bv8, id: nat, h: Header)
    ensures var v := JudgeToInside(conns, hash, now, id, h).verdict; v.Rewrite? ==> v.h == WithAck(h, v.h.ackNum)
  {
    var d := KeyToInside(h);
    if d in conns { OnlyTheAck(conns[d], h); }
    hide Has, Check, Live, Minus, Plus, KeyToInside, CookieReply, CookieRst, AdmittedSyn, AckInward, WithAck;
  }

  lemma {:induction false} InsideCreates(conns: Table, hash: Hash, now: bv8, id: nat, h: Header)
    ensures var v := JudgeToInside(conns, hash, now, id, h).verdict;
      v.Reply? || v.Admit? || v.Reset? ==> v.h in {CookieReply(hash, now, h), CookieRst(h), AdmittedSyn(h)} && v.h.tcp
  {
    assert CookieReply(hash, now, h).tcp && CookieRst(h).tcp && AdmittedSyn(h).tcp;
    hide Has, Check, Live, Minus, Plus, KeyToInside, CookieReply, CookieRst, AdmittedSyn;
  }

  /** A packet from inside has at most its sequence number changed. */
  lemma {:induction false} OutsideVerdicts(conns: Table, mem: seq<Header>, h: Header)
    requires HeldInRange(conns, |mem|)
    ensures var v := JudgeToOutside(conns, mem, h).verdict;
      && (v.Rewrite? ==> v.h == WithSeq(h, v.h.seqNum))
      && !v.Reply? && !v.Admit? && !v.Reset?
  {
    hide Has, Live, Minus, Plus, KeyToOutside;
  }

  lemma {:induction false} InsideMem(w: World, v: World, hash: Hash, i: nat, now: bv8)
    requires InsideStep(w, v, hash, i, now)
    ensures var id := w.inside[i].id; var h := w.mem[id];
      v.mem ==
        if !h.tcp then w.mem
        else match JudgeToInside(w.conns, hash, now, id, h).verdict
          case Rewrite(r) => w.mem[id := r]
          case Reply(r) => w.mem + [r]
          case Admit(r) => w.mem + [r]
          case Reset(r) => w.mem + [r]
          case _ => w.mem
  {
    hide JudgeToInside;
  }

  lemma {:induction false} CarriesLong(s: seq<Byte>, h: Header)
    requires Carries(s, h)
    ensures |s| >= 34
  {}

  lemma {:induction false} AckKeeps(x: Wired, y: Wired, id: nat, ack: bv32)
    requires AllGood(x) && id < |x.bytes| && x.w.mem[id].tcp
    requires y.bytes == x.bytes[id := AckWritten(x.bytes[id], ack)]
    requires y.w.mem == x.w.mem[id := WithAck(x.w.mem[id], ack)]
    requires y.first == x.first && y.created == x.created && y.rewritten == x.rewritten + {id}
    ensures AllGood(y)
  {
    assert Good(x, id);
    AckWrittenCarries(x.bytes[id], x.w.mem[id], ack);
    AckWrittenStays(x.bytes[id], ack);
    CarriesLong(x.bytes[id], x.w.mem[id]);
    hide Carries, Sound, AckWritten, Good;
    WritesKeep(x, y, id, AckWritten(x.bytes[id], ack), WithAck(x.w.mem[id], ack));
  }

  lemma {:induction false} SeqKeeps(x: Wired, y: Wired, id: nat, seqNum: bv32)
    requires AllGood(x) && id < |x.bytes| && x.w.mem[id].tcp
    requires y.bytes == x.bytes[id := SeqWritten(x.bytes[id], seqNum)]
    requires y.w.mem == x.w.mem[id := WithSeq(x.w.mem[id], seqNum)]
    requires y.first == x.first && y.created == x.created && y.rewritten == x.rewritten + {id}
    ensures AllGood(y)
  {
    assert Good(x, id);
    SeqWrittenCarries(x.bytes[id], x.w.mem[id], seqNum);
    SeqWrittenStays(x.bytes[id], seqNum);
    CarriesLong(x.bytes[id], x.w.mem[id]);
    hide Carries, Sound, SeqWritten, Good;
    WritesKeep(x, y, id, SeqWritten(x.bytes[id], seqNum), WithSeq(x.w.mem[id], seqNum));
  }

  lemma {:induction false} InsideTcp(w: World, v: World, hash: Hash, i: nat, now: bv8)
    requires InsideStep(w, v, hash, i, now)
    ensures KeepsTcp(w.mem, v.mem)
  {
    InsideMem(w, v, hash, i, now);
    InsideRewrites(w.conns, hash, now, w.inside[i].id, w.mem[w.inside[i].id]);
    hide JudgeToInside, StepToInside;
  }

  /** The buffers and bytes after a verdict on buffer id. */
  ghost predicate InsideEffect(x: Wired, y: Wired, id: nat, v: Verdict, room: seq<Byte>)
    requires Aligned(x) && id < |x.bytes|
  {
    match v
    case Rewrite(r) =>
      y == x.(w := y.w, bytes := x.bytes[id := AckWritten(x.bytes[id], r.ackNum)], rewritten := x.rewritten + {id})
      && y.w.mem == x.w.mem[id := r]
    case Reply(r) => y == Adds(x.(w := y.w), Created(r, room)) && y.w.mem == x.w.mem + [r]
    case Admit(r) => y == Adds(x.(w := y.w), Created(r, room)) && y.w.mem == x.w.mem + [r]
    case Reset(r) => y == Adds(x.(w := y.w), Created(r, room)) && y.w.mem == x.w.mem + [r]
    case _ => y == x.(w := y.w) && y.w.mem == x.w.mem
  }

  lemma {:induction false} GoodIsAligned(x: Wired)
    requires AllGood(x)
    ensures Aligned(x)
  {}

  lemma {:induction false} CreatedKeeps(x: Wired, y: Wired, h: Header, room: seq<Byte>)
    requires AllGood(x) && h.tcp && y == Adds(x.(w := y.w), Created(h, room)) && y.w.mem == x.w.mem + [h]
    ensures AllGood(y)
  {
    CreatedCarries(h, room);
    hide AllGood, Carries, Sound, Created;
    AppendsKeep(x, y, Created(h, room), h);
  }

  lemma {:induction false} EffectKeeps(x: Wired, y: Wired, id: nat, v: Verdict, room: seq<Byte>)
    requires AllGood(x) && id < |x.bytes| && x.w.mem[id].tcp && InsideEffect(x, y, id, v, room)
    requires v.Rewrite? ==> v.h == WithAck(x.w.mem[id], v.h.ackNum)
    requires v.Reply? || v.Admit? || v.Reset? ==> v.h.tcp
    ensures AllGood(y)
  {
    GoodIsAligned(x);
    hide Adds, AckWritten, Created, AllGood, WithAck;
    if v.Rewrite? {
      AckKeeps(x, y, id, v.h.ackNum);
    } else if v.Reply? || v.Admit? || v.Reset? {
      CreatedKeeps(x, y, v.h, room);
    } else {
      SameBytesKeep(x, y);
    }
  }

  lemma {:induction false} InsideBytes(x: Wired, v: World, hash: Hash, i: nat, now: bv8, room: seq<Byte>)
    requires AllGood(x) && InsideStep(x.w, v, hash, i, now)
    ensures AllGood(TreatedInside(x, hash, now, i, room))
  {
    var id := x.w.inside[i].id;
    var h := x.w.mem[id];
    var y := TreatedInside(x, hash, now, i, room);
    GoodIsAligned(x);
    InsideMem(x.w, v, hash, i, now);
    InsideRewrites(x.w.conns, hash, now, id, h);
    InsideCreates(x.w.conns, hash, now, id, h);
    hide JudgeToInside, StepToInside, Created, AckWritten, Adds, AllGood, WithAck;
    if h.tcp {
      EffectKeeps(x, y, id, JudgeToInside(x.w.conns, hash, now, id, h).verdict, room);
    } else {
      SameBytesKeep(x, y);
    }
  }

  // ----- Released packets -----

  /** The state while held packets are being written, with everything else as it is. */
  ghost function With(x: Wired, bytes: seq<seq<Byte>>, mem: seq<Header>, ids: set<nat>): Wired {
    x.(bytes := bytes, w := x.w.(mem := mem), rewritten := x.rewritten + ids)
  }

  ghost predicate TcpAll(mem: seq<Header>, held: seq<Pointer>) {
    forall k :: 0 <= k < |held| ==> held[k].Mbuf? && held[k].id < |mem| && mem[held[k].id].tcp
  }

  lemma {:induction false} RestKeeps(x: Wired, rest: seq<Pointer>, offset: bv32)
    requires AllGood(x) && TcpAll(x.w.mem, rest)
    ensures Full(rest) && InRange(rest, |x.w.mem|)
    ensures AllGood(With(x, RestWritten(x.bytes, x.w.mem, rest, offset), AdjustRest(x.w.mem, rest, offset), Ids(rest)))
    ensures KeepsTcp(x.w.mem, AdjustRest(x.w.mem, rest, offset))
    decreases |rest|
  {
    hide AllGood, AckWritten, Minus;
    if rest == [] {
      assert Ids(rest) == {} && x.rewritten + {} == x.rewritten;
    } else {
      var id := rest[0].id;
      var ack := Minus(x.w.mem[id].ackNum, offset);
      var mem := x.w.mem[id := WithAck(x.w.mem[id], ack)];
      assert id < |x.bytes| by { GoodIsAligned(x); }
      var y := With(x, x.bytes[id := AckWritten(x.bytes[id], ack)], mem, {id});
      AckKeeps(x, y, id, ack);
      RestKeeps(y, rest[1..], offset);
      assert Ids(rest) == {id} + Ids(rest[1..]);
      assert x.rewritten + {id} + Ids(rest[1..]) == x.rewritten + Ids(rest);
    }
  }

  lemma {:induction false} HeldKeeps(x: Wired, held: seq<Pointer>, isn: bv32, offset: bv32)
    requires AllGood(x) && TcpAll(x.w.mem, held) && |held| > 0
    ensures Full(held) && InRange(held, |x.w.mem|)
    ensures var mem := AdjustHeld(x.w.mem, held, isn, offset);
      AllGood(With(x, HeldWritten(x.bytes, x.w.mem, held, isn, offset), mem, Ids(held))) && KeepsTcp(x.w.mem, mem)
  {
    GoodIsAligned(x);
    hide AllGood, AckWritten, Minus, Plus, RestWritten, AdjustRest;
    var id := held[0].id;
    var ack := Plus(isn, 1);
    var mem := x.w.mem[id := WithAck(x.w.mem[id], ack)];
    var y := With(x, x.bytes[id := AckWritten(x.bytes[id], ack)], mem, {id});
    AckKeeps(x, y, id, ack);
    RestKeeps(y, held[1..], offset);
    assert Ids(held) == {id} + Ids(held[1..]);
    assert x.rewritten + {id} + Ids(held[1..]) == x.rewritten + Ids(held);
  }

  lemma {:induction false} OutsideMem(w: World, v: World, i: nat)
    requires OutsideStep(w, v, i)
    ensures var t := JudgeToOutside(w.conns, w.mem, w.mem[w.outside[i].id]).verdict;
      t.Release? ==> |t.held| > 0 && Full(t.held) && InRange(t.held, |w.mem|)
    ensures var id := w.outside[i].id; var h := w.mem[id];
      v.mem ==
        if !h.tcp then w.mem
        else match JudgeToOutside(w.conns, w.mem, h).verdict
          case Rewrite(r) => w.mem[id := r]
          case Release(held, isn, offset) => AdjustHeld(w.mem, held, isn, offset)
          case _ => w.mem
  {
    ReleasedAreReal(w.conns, w.mem, w.mem[w.outside[i].id]);
    hide JudgeToOutside, AdjustHeld;
  }

  lemma {:induction false} ReleasedAreTcp(conns: Table, mem: seq<Header>, h: Header)
    requires HeldTcp(conns, mem) && HeldInRange(conns, |mem|)
    ensures var v := JudgeToOutside(conns, mem, h).verdict; v.Release? ==> |v.held| > 0 && TcpAll(mem, v.held)
  {
    ReleasedAreReal(conns, mem, h);
    ToOutsideExactly(conns, mem, h);
    LostToOutside(conns, mem, h);
    hide JudgeToOutside, Has, Live, KeyToOutside, Closes;
  }

  lemma {:induction false} OutsideBytes(x: Wired, v: World, i: nat)
    requires AllGood(x) && HeldTcp(x.w.conns, x.w.mem) && OutsideStep(x.w, v, i)
    ensures AllGood(TreatedOutside(x, i)) && KeepsTcp(x.w.mem, v.mem)
  {
    var id := x.w.outside[i].id;
    var h := x.w.mem[id];
    var y := TreatedOutside(x, i);
    OutsideMem(x.w, v, i);
    OutsideVerdicts(x.w.conns, x.w.mem, h);
    ReleasedAreTcp(x.w.conns, x.w.mem, h);
    var t := JudgeToOutside(x.w.conns, x.w.mem, h);
    hide JudgeToOutside, StepToOutside, HeldWritten, AdjustHeld, HeldTcp, SeqWritten, Good, Sane, TcpAll, Ids;
    if h.tcp && t.verdict.Rewrite? {
      SeqKeeps(x, y, id, t.verdict.h.seqNum);
    } else if h.tcp && t.verdict.Release? {
      HeldKeeps(x, t.verdict.held, t.verdict.isn, t.verdict.offset);
      SameBytesKeep(With(x, y.bytes, v.mem, Ids(t.verdict.held)), y);
    } else {
      SameBytesKeep(x, y);
    }
  }

  // ----- Every state of every run -----

  ghost predicate InsideWired(x: Wired, y: Wired, hash: Hash, i: nat, now: bv8, room: seq<Byte>) {
    Aligned(x) && InsideStep(x.w, y.w, hash, i, now) && y == TreatedInside(x, hash, now, i, room)
  }

  ghost predicate OutsideWired(x: Wired, y: Wired, i: nat) {
    Aligned(x) && OutsideStep(x.w, y.w, i) && y == TreatedOutside(x, i)
  }

  /** What arrives are bytes, of which the parser makes the headers. */
  ghost predicate PollWired(x: Wired, y: Wired, arrived: seq<Header>, raw: seq<seq<Byte>>) {
    && |raw| == |arrived| && (forall k :: 0 <= k < |raw| ==> Carries(raw[k], arrived[k]))
    && PollStep(x.w, y.w, arrived) && y == x.(w := y.w, first := x.first + raw, bytes := x.bytes + raw)
  }

  ghost predicate SendWired(x: Wired, y: Wired, accept: nat -> nat) {
    SendStep(x.w, y.w, accept) && y == x.(w := y.w)
  }

  /** A step of a run, and what it does to the bytes. */
  ghost predicate NextWired(x: Wired, y: Wired, hash: Hash) {
    || (exists i: nat, now: bv8, room: seq<Byte> :: InsideWired(x, y, hash, i, now, room))
    || (exists i: nat :: OutsideWired(x, y, i))
    || (exists arrived: seq<Header>, raw: seq<seq<Byte>> :: PollWired(x, y, arrived, raw))
    || (exists accept: nat -> nat :: SendWired(x, y, accept))
  }

  ghost predicate WiredRun(xs: seq<Wired>, hash: Hash) {
    |xs| > 0 && forall k :: 0 <= k < |xs| - 1 ==> NextWired(xs[k], xs[k + 1], hash)
  }

  ghost function Worlds(xs: seq<Wired>): seq<World> { seq(|xs|, k requires 0 <= k < |xs| => xs[k].w) }

  lemma {:induction false} InsideFaithful(x: Wired, y: Wired, hash: Hash, i: nat, now: bv8, room: seq<Byte>)
    requires Faithful(x) && InsideWired(x, y, hash, i, now, room)
    ensures Faithful(y) && InsideStep(x.w, y.w, hash, i, now)
  {
    var id := x.w.inside[i].id;
    InsideBytes(x, y.w, hash, i, now, room);
    InsideTcp(x.w, y.w, hash, i, now);
    InsideTable(x.w, y.w, hash, i, now);
    hide Good, JudgeToInside, StepToInside, AckWritten, Created, HeldTcp, KeepsTcp;
    if x.w.mem[id].tcp { HeldTcpInside(x.w.conns, x.w.mem, hash, now, id, x.w.mem[id]); }
    HeldTcpLater(y.w.conns, x.w.mem, y.w.mem);
  }

  lemma {:induction false} OutsideFaithful(x: Wired, y: Wired, i: nat)
    requires Faithful(x) && OutsideWired(x, y, i)
    ensures Faithful(y) && OutsideStep(x.w, y.w, i)
  {
    OutsideBytes(x, y.w, i);
    OutsideTable(x.w, y.w, i);
    HeldTcpOutside(x.w.conns, x.w.mem, x.w.mem[x.w.outside[i].id]);
    hide Good, JudgeToOutside, StepToOutside, SeqWritten, HeldWritten, HeldTcp, KeepsTcp, Ids;
    HeldTcpLater(y.w.conns, x.w.mem, y.w.mem);
  }

  lemma {:induction false} PollFaithful(x: Wired, y: Wired, arrived: seq<Header>, raw: seq<seq<Byte>>)
    requires Faithful(x) && PollWired(x, y, arrived, raw)
    ensures Faithful(y) && PollStep(x.w, y.w, arrived)
  {
    hide Carries, Sound, HeldTcp;
    HeldTcpLater(x.w.conns, x.w.mem, y.w.mem);
    forall id: nat | id < |y.bytes| ensures Good(y, id) {
      if id < |x.bytes| { assert Good(x, id); }
    }
  }

  lemma {:induction false} SendFaithful(x: Wired, y: Wired, accept: nat -> nat)
    requires Faithful(x) && SendWired(x, y, accept)
    ensures Faithful(y) && SendStep(x.w, y.w, accept)
  {
    hide Good, HeldTcp;
    SameBytesKeep(x, y);
  }

  lemma {:induction false} NextFaithful(x: Wired, y: Wired, hash: Hash)
    requires Faithful(x) && NextWired(x, y, hash)
    ensures Faithful(y) && Next(x.w, y.w, hash)
  {
    hide Faithful, InsideWired, OutsideWired, PollWired, SendWired, InsideStep, OutsideStep, PollStep, SendStep;
    if i: nat, now: bv8, room: seq<Byte> :| InsideWired(x, y, hash, i, now, room) {
      InsideFaithful(x, y, hash, i, now, room);
    } else if i: nat :| OutsideWired(x, y, i) {
      OutsideFaithful(x, y, i);
    } else if arrived: seq<Header>, raw: seq<seq<Byte>> :| PollWired(x, y, arrived, raw) {
      PollFaithful(x, y, arrived, raw);
    } else {
      var accept: nat -> nat :| SendWired(x, y, accept);
      SendFaithful(x, y, accept);
    }
  }

  /** In every state of every run the bytes are faithful, and without them it is a run. */
  lemma {:induction false} WiredRunIsRun(xs: seq<Wired>, hash: Hash)
    requires WiredRun(xs, hash) && Faithful(xs[0])
    ensures forall k :: 0 <= k < |xs| ==> Faithful(xs[k])
    ensures IsRun(Worlds(xs), hash)
  {
    hide Faithful, NextWired, Next;
    if |xs| == 1 {
    } else {
      var n := |xs| - 1;
      var front := xs[..n];
      forall k | 0 <= k < |front| - 1 ensures NextWired(front[k], front[k + 1], hash) {
        assert NextWired(xs[k], xs[k + 1], hash);
      }
      WiredRunIsRun(front, hash);
      assert NextWired(xs[n - 1], xs[n - 1 + 1], hash) && front[n - 1] == xs[n - 1];
      NextFaithful(xs[n - 1], xs[n], hash);
      forall k | 0 <= k < |xs| ensures Faithful(xs[k]) {
        if k < n { assert front[k] == xs[k]; }
      }
      forall k | 0 <= k < n ensures Next(Worlds(xs)[k], Worlds(xs)[k + 1], hash) {
        if k < n - 1 { assert Next(Worlds(front)[k], Worlds(front)[k + 1], hash); }
      }
    }
  }

  lemma {:induction false} StartFaithful()
    ensures Faithful(Wired(Start(), [], [], {}, {}))
  {}

  lemma {:induction false} SentExists(w: World, id: nat)
    requires Owned(w) && id in w.sent
    ensures id < |w.mem|
  {
    hide Live, HeldIds;
    assert Count(w, id) >= 1;
  }

  lemma {:induction false} FaithfulAt(x: Wired, id: nat)
    requires Faithful(x) && id < |x.w.mem|
    ensures id < |x.bytes| == |x.first| && Carries(x.bytes[id], x.w.mem[id])
    ensures var s := x.bytes[id];
      && (id in x.created || id in x.rewritten ==> Sound(s))
      && (id in x.created ==> T.TcpVerifies(s, 14, L4(s)) && T.Payloadless(s))
      && (id !in x.rewritten ==> s == x.first[id])
  {
    assert Good(x, id);
    hide Carries, T.IpVerifies, T.TcpVerifies;
  }

  /** What the receiver of a sent packet gets, over every run from the empty start: bytes that
      read as the header the treatment left. If the proxy created the packet, both checksums
      verify; if it rewrote it, the IP checksum does, and the TCP checksum exactly without IP
      options; and if it did neither, they are the bytes that arrived. */
  lemma {:induction false} SentVerifies(xs: seq<Wired>, hash: Hash, k: nat, id: nat)
    requires WiredRun(xs, hash) && xs[0] == Wired(Start(), [], [], {}, {})
    requires k < |xs| && id in xs[k].w.sent
    ensures id < |xs[k].bytes| == |xs[k].w.mem| == |xs[k].first| && Carries(xs[k].bytes[id], xs[k].w.mem[id])
    ensures var x := xs[k]; var s := x.bytes[id];
      && (id in x.created || id in x.rewritten ==> Sound(s))
      && (id in x.created ==> T.TcpVerifies(s, 14, L4(s)) && T.Payloadless(s))
      && (id !in x.rewritten ==> s == x.first[id])
  {
    var x := xs[k];
    StartFaithful();
    WiredRunIsRun(xs, hash);
    StartReachable();
    hide Faithful, WiredRun, Carries, Sound, IsRun, Good;
    assert Worlds(xs)[0] == Start() && Worlds(xs)[k] == x.w;
    RunReachable(Worlds(xs), hash);
    assert id < |x.w.mem| by { SentExists(x.w, id); }
    FaithfulAt(x, id);
  }

  // ----- Every run has bytes -----

  /** Some packet with a given header. */
  function Packet(h: Header): seq<Byte> { if h.tcp then Created(h, []) else seq(34, k => 0) }

  lemma {:induction false} PacketCarries(h: Header)
    ensures Carries(Packet(h), h)
  {
    if h.tcp {
      CreatedCarries(h, []);
    } else {
      hide Created;
      assert Packet(h)[12] == 0;
    }
  }

  lemma {:induction false} PollsHaveBytes(x: Wired, v: World, arrived: seq<Header>)
    requires Faithful(x) && PollStep(x.w, v, arrived)
    ensures exists y: Wired :: y.w == v && Faithful(y) && exists raw: seq<seq<Byte>> :: PollWired(x, y, arrived, raw)
  {
    hide Faithful, Carries, PollStep, Packet;
    var raw := seq(|arrived|, k requires 0 <= k < |arrived| => Packet(arrived[k]));
    var y := x.(w := v, first := x.first + raw, bytes := x.bytes + raw);
    forall k | 0 <= k < |raw| ensures Carries(raw[k], arrived[k]) { PacketCarries(arrived[k]); }
    assert PollWired(x, y, arrived, raw);
    PollFaithful(x, y, arrived, raw);
  }

  lemma {:induction false} StepsHaveBytes(x: Wired, v: World, hash: Hash)
    requires Faithful(x) && Next(x.w, v, hash)
    ensures exists y: Wired :: y.w == v && NextWired(x, y, hash)
  {
    assert Aligned(x);
    hide Faithful, Aligned, PollWired, StepToInside, StepToOutside, PollStep, SendStep, JudgeToInside, JudgeToOutside;
    if i: nat, now: bv8 :| InsideStep(x.w, v, hash, i, now) {
      var y := TreatedInside(x, hash, now, i, []);
      assert InsideWired(x, y, hash, i, now, []);
    } else if i: nat :| OutsideStep(x.w, v, i) {
      assert OutsideWired(x, TreatedOutside(x, i), i);
    } else if arrived: seq<Header> :| PollStep(x.w, v, arrived) {
      PollsHaveBytes(x, v, arrived);
    } else {
      var accept: nat -> nat :| SendStep(x.w, v, accept);
      assert SendWired(x, x.(w := v), accept);
    }
  }

  /** Every run from the empty start can be followed on the bytes. */
  lemma {:induction false} RunHasBytes(ws: seq<World>, hash: Hash) returns (xs: seq<Wired>)
    requires IsRun(ws, hash) && ws[0] == Start()
    ensures WiredRun(xs, hash) && xs[0] == Wired(Start(), [], [], {}, {}) && Worlds(xs) == ws
  {
    StartFaithful();
    hide Faithful, Next, NextWired;
    xs := [Wired(Start(), [], [], {}, {})];
    while |xs| < |ws|
      invariant 0 < |xs| <= |ws| && xs[0] == Wired(Start(), [], [], {}, {})
      invariant WiredRun(xs, hash) && Faithful(xs[|xs| - 1])
      invariant forall k :: 0 <= k < |xs| ==> xs[k].w == ws[k]
    {
      var n := |xs| - 1;
      assert Next(ws[n], ws[n + 1], hash);
      StepsHaveBytes(xs[n], ws[n + 1], hash);
      var y: Wired :| y.w == ws[n + 1] && NextWired(xs[n], y, hash);
      NextFaithful(xs[n], y, hash);
      ghost var longer := xs + [y];
      forall k | 0 <= k < |longer| - 1 ensures NextWired(longer[k], longer[k + 1], hash) {
        if k < n { assert NextWired(xs[k], xs[k + 1], hash); }
      }
      xs := longer;
    }
  }
}
