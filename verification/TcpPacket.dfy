/** TCP/IPv4 frames as bytes: building a payloadless packet, parsing one, reading
    and rewriting header fields, and recalculating both checksums. */
module TcpPacket {
  import opened Checksum
  import opened Machine

  // ----- Big-endian fields -----

  type Word32 = x: int | 0 <= x < 0x1_0000_0000

  function Be16(v: Word16): (s: seq<Byte>)
    ensures |s| == 2
  {
    [v / 256, v % 256]
  }

  function Be32(v: Word32): (s: seq<Byte>)
    ensures |s| == 4
  {
    [v / 0x100_0000, v / 0x1_0000 % 256, v / 256 % 256, v % 256]
  }

  function U16(s: seq<Byte>, at: nat): Word16
    requires at + 2 <= |s|
  {
    s[at] as int * 256 + s[at + 1] as int
  }

  function U32(s: seq<Byte>, at: nat): Word32
    requires at + 4 <= |s|
  {
    s[at] as int * 0x100_0000 + s[at + 1] as int * 0x1_0000 + s[at + 2] as int * 256 + s[at + 3] as int
  }

  lemma {:induction false} FieldsReadBack(v: Word16, w: Word32)
    ensures U16(Be16(v), 0) == v && U32(Be32(w), 0) == w
  {}

  /** A header field written in place: it holds its bytes, and nothing else moves. */
  method Store(m: array<Byte>, at: nat, bytes: seq<Byte>)
    requires at + |bytes| <= m.Length
    modifies m
    ensures m[at..at + |bytes|] == bytes
    ensures forall i :: 0 <= i < at || at + |bytes| <= i < m.Length ==> m[i] == old(m[i])
  {
    CopyInto(m, at, bytes);
    assert forall i :: 0 <= i < m.Length ==> m[i] == m[..][i];
  }

  // ----- The frame that fill_payloadless_tcp_packet leaves behind -----

  type Mac = s: seq<Byte> | |s| == 6 witness [0, 0, 0, 0, 0, 0]

  datatype Fields = Fields(
    srcMac: Mac, dstMac: Mac, srcIp: Word32, dstIp: Word32, srcPort: Word16, dstPort: Word16,
    seqNum: Word32, ackNum: Word32, flags: Byte, window: Word16)

  function EthHeader(f: Fields): (s: seq<Byte>)
    ensures |s| == 14
  {
    f.dstMac + f.srcMac + Be16(0x0800)
  }

  /** Version 4, header length 20, total length 40, time to live 128, protocol TCP, no checksum yet. */
  function IpHeader(f: Fields): (s: seq<Byte>)
    ensures |s| == 20
  {
    [0x45, 0] + Be16(40) + [0, 0, 0, 0, 128, 6, 0, 0] + Be32(f.srcIp) + Be32(f.dstIp)
  }

  function TcpHeader(f: Fields): (s: seq<Byte>)
    ensures |s| == 20
  {
    Be16(f.srcPort) + Be16(f.dstPort) + Be32(f.seqNum) + Be32(f.ackNum)
    + [0x50, f.flags] + Be16(f.window) + [0, 0, 0, 0]
  }

  function Frame(f: Fields): (s: seq<Byte>)
    ensures |s| == 54
  {
    EthHeader(f) + IpHeader(f) + TcpHeader(f)
  }

  lemma {:induction false} FrameBytes(f: Fields, rest: seq<Byte>)
    ensures var s := Frame(f) + rest;
      && s[12] == 8 && s[13] == 0 && s[14] == 0x45 && s[15] == 0 && s[16] == 0 && s[17] == 40
      && s[18] == 0 && s[19] == 0 && s[20] == 0 && s[21] == 0 && s[22] == 128 && s[23] == 6
      && s[46] == 0x50 && s[52] == 0 && s[53] == 0
  {
    var s := Frame(f) + rest;
    assert s[12] == Be16(0x0800)[0] && s[13] == Be16(0x0800)[1];
    assert s[46] == TcpHeader(f)[12] && s[52] == TcpHeader(f)[18] && s[53] == TcpHeader(f)[19];
  }

  /** Section 3.1 of RFC 791 and of RFC 793: what a receiver makes of the bytes of a frame,
      apart from addresses and numbers. IPv4 with normal service, not a fragment, 128 hops
      to live, TCP without urgent data; and its two headers are the whole packet. */
  predicate Payloadless(s: seq<Byte>) {
    && |s| >= 54 && s[12] == 8 && s[13] == 0
    && s[14] / 16 == 4 && s[14] % 16 == 5 && s[15] == 0
    && s[16] as int * 256 + s[17] as int == s[14] as int % 16 * 4 + s[46] as int / 16 * 4
    && s[18] == 0 && s[19] == 0 && s[20] == 0 && s[21] == 0 && s[22] == 128 && s[23] == 6
    && s[46] % 16 == 0 && s[52] == 0 && s[53] == 0
  }

  lemma {:induction false} FrameIsPayloadless(f: Fields, rest: seq<Byte>)
    ensures Payloadless(Frame(f) + rest)
  {
    FrameBytes(f, rest);
    hide Frame;
  }

  // ----- Parsing -----

  datatype PacketType = NONE | IPv4ICMP | IPv4TCP | IPv4UDP

  /** What the parser decides: the kind of packet and where its layer-4 header starts. */
  datatype PktInfo = PktInfo(kind: PacketType, l4: nat)

  /** create_pkt_info in its parsing form, with its 16-bit offset arithmetic. */
  function CreatePktInfo(s: seq<Byte>): PktInfo
    requires |s| >= 34
  {
    if U16(s, 12) == 0x0800 then
      var offset := (14 + (s[14] as int - 64) * 4) % 0x1_0000;
      if s[23] == 6 then PktInfo(IPv4TCP, offset)
      else if s[23] == 17 then PktInfo(IPv4UDP, offset)
      else if s[23] == 1 then PktInfo(IPv4ICMP, offset)
      else PktInfo(NONE, 0)
    else PktInfo(NONE, 0)
  }

  function GetSrcIp(s: seq<Byte>): Word32 requires |s| >= 34 { U32(s, 26) }
  function GetDstIp(s: seq<Byte>): Word32 requires |s| >= 34 { U32(s, 30) }
  function GetSrcPort(s: seq<Byte>, l4: nat): Word16 requires l4 + 20 <= |s| { U16(s, l4) }
  function GetDstPort(s: seq<Byte>, l4: nat): Word16 requires l4 + 20 <= |s| { U16(s, l4 + 2) }
  function GetSeqNum(s: seq<Byte>, l4: nat): Word32 requires l4 + 20 <= |s| { U32(s, l4 + 4) }
  function GetAckNum(s: seq<Byte>, l4: nat): Word32 requires l4 + 20 <= |s| { U32(s, l4 + 8) }
  function GetFlags(s: seq<Byte>, l4: nat): Byte requires l4 + 20 <= |s| { s[l4 + 13] }
  function GetWindow(s: seq<Byte>, l4: nat): Word16 requires l4 + 20 <= |s| { U16(s, l4 + 14) }

  /** Everything the getters read, as one record. */
  function Parse(s: seq<Byte>, l4: nat): Fields
    requires |s| >= 34 && l4 + 20 <= |s|
  {
    Fields(s[6..12], s[..6], GetSrcIp(s), GetDstIp(s), GetSrcPort(s, l4), GetDstPort(s, l4),
           GetSeqNum(s, l4), GetAckNum(s, l4), GetFlags(s, l4), GetWindow(s, l4))
  }

  /** The number that bytes stand for on the wire, most significant byte first. */
  function Number(b: seq<Byte>): nat {
    if b == [] then 0 else Number(b[..|b| - 1]) * 256 + b[|b| - 1]
  }

  lemma {:induction false} NumberOf(b: seq<Byte>, x: Byte)
    ensures Number(b + [x]) == Number(b) * 256 + x
  {
    assert (b + [x])[..|b|] == b;
  }

  lemma {:induction false} Numbers(s: seq<Byte>, at: nat)
    ensures at + 2 <= |s| ==> U16(s, at) == Number(s[at..at + 2])
    ensures at + 4 <= |s| ==> U32(s, at) == Number(s[at..at + 4])
  {
    if at + 2 <= |s| {
      NumberOf([], s[at]);
      NumberOf([s[at]], s[at + 1]);
      assert s[at..at + 2] == [s[at]] + [s[at + 1]] && [] + [s[at]] == [s[at]];
    }
    if at + 4 <= |s| {
      NumberOf(s[at..at + 2], s[at + 2]);
      NumberOf(s[at..at + 3], s[at + 3]);
      assert s[at..at + 3] == s[at..at + 2] + [s[at + 2]] && s[at..at + 4] == s[at..at + 3] + [s[at + 3]];
    }
  }

  /** Section 3.1 of RFC 791 and of RFC 793: where in a packet the getters look. */
  lemma {:induction false} ParseReads(s: seq<Byte>, l4: nat)
    requires |s| >= 34 && l4 + 20 <= |s|
    ensures var f := Parse(s, l4);
      && f.dstMac == s[..6] && f.srcMac == s[6..12]
      && f.srcIp == Number(s[26..30]) && f.dstIp == Number(s[30..34])
      && f.srcPort == Number(s[l4..l4 + 2]) && f.dstPort == Number(s[l4 + 2..l4 + 4])
      && f.seqNum == Number(s[l4 + 4..l4 + 8]) && f.ackNum == Number(s[l4 + 8..l4 + 12])
      && f.flags == s[l4 + 13] && f.window == Number(s[l4 + 14..l4 + 16])
  {
    hide U16, U32, Number;
    Numbers(s, 26); Numbers(s, 30);
    Numbers(s, l4); Numbers(s, l4 + 2); Numbers(s, l4 + 4); Numbers(s, l4 + 8); Numbers(s, l4 + 14);
  }

  /** Exactly which frames are recognised: EtherType IPv4, and the protocol decides. The
      layer-4 header lies behind the IPv4 header, whatever its length; a first byte that is
      not of version 4 makes the 16-bit offset wrap. */
  lemma {:induction false} Classified(s: seq<Byte>)
    requires |s| >= 34
    ensures var p := CreatePktInfo(s); var ipv4 := s[12] == 8 && s[13] == 0;
      && (p.kind == IPv4TCP <==> ipv4 && s[23] == 6)
      && (p.kind == IPv4UDP <==> ipv4 && s[23] == 17)
      && (p.kind == IPv4ICMP <==> ipv4 && s[23] == 1)
      && (p.kind == NONE ==> p.l4 == 0)
      && (p.kind != NONE && s[14] / 16 == 4 ==> p.l4 == 14 + s[14] as int % 16 * 4)
      && (p.kind != NONE && s[14] < 61 ==> p.l4 == 0x1_0000 + 14 - (64 - s[14] as int) * 4)
  {}

  lemma {:induction false} SliceReads(s: seq<Byte>, i: nat, t: seq<Byte>)
    requires i + |t| <= |s| && s[i..i + |t|] == t
    ensures |t| == 2 ==> U16(s, i) == U16(t, 0)
    ensures |t| == 4 ==> U32(s, i) == U32(t, 0)
    ensures |t| > 0 ==> s[i] == t[0]
  {
    if |t| > 0 { assert s[i] == s[i..i + |t|][0]; }
    if |t| == 2 { assert s[i + 1] == s[i..i + 2][1]; }
    if |t| == 4 { assert s[i + 1] == s[i..i + 4][1] && s[i + 2] == s[i..i + 4][2] && s[i + 3] == s[i..i + 4][3]; }
  }

  /** A built frame, whatever follows it in the buffer, parses as TCP over IPv4 and
      gives every field back. */
  lemma {:induction false} BuildThenParse(f: Fields, rest: seq<Byte>)
    ensures CreatePktInfo(Frame(f) + rest) == PktInfo(IPv4TCP, 34)
    ensures Parse(Frame(f) + rest, 34) == f
  {
    var s := Frame(f) + rest;
    var tcp := TcpHeader(f);
    hide Be16, Be32, U16, U32;
    assert s[6..12] == f.srcMac && s[..6] == f.dstMac;
    assert s[12..14] == Be16(0x0800);
    assert s[26..30] == Be32(f.srcIp) && s[30..34] == Be32(f.dstIp);
    assert s[34..36] == Be16(f.srcPort) && s[36..38] == Be16(f.dstPort);
    assert s[38..42] == Be32(f.seqNum) && s[42..46] == Be32(f.ackNum);
    assert s[48..50] == Be16(f.window);
    SliceReads(s, 12, Be16(0x0800));
    SliceReads(s, 26, Be32(f.srcIp)); SliceReads(s, 30, Be32(f.dstIp));
    SliceReads(s, 34, Be16(f.srcPort)); SliceReads(s, 36, Be16(f.dstPort));
    SliceReads(s, 38, Be32(f.seqNum)); SliceReads(s, 42, Be32(f.ackNum));
    SliceReads(s, 48, Be16(f.window));
    FieldsReadBack(0x0800, f.srcIp);
    FieldsReadBack(f.srcPort, f.dstIp);
    FieldsReadBack(f.dstPort, f.seqNum);
    FieldsReadBack(f.window, f.ackNum);
  }

  // ----- Building in place, store by store -----

  /** fill_eth_hdr; the type was stored when the packet was created. */
  method FillEthHdr(m: array<Byte>, f: Fields)
    requires m.Length >= 54 && m[12..14] == Be16(0x0800)
    modifies m
    ensures m[..14] == EthHeader(f) && m[14..] == old(m[14..])
  {
    Store(m, 0, f.dstMac);
    Store(m, 6, f.srcMac);
  }

  /** Ports, sequence and acknowledgment number. */
  method FillTcpNumbers(m: array<Byte>, f: Fields)
    requires m.Length >= 54
    modifies m
    ensures m[34..46] == Be16(f.srcPort) + Be16(f.dstPort) + Be32(f.seqNum) + Be32(f.ackNum)
    ensures m[..34] == old(m[..34]) && m[46..] == old(m[46..])
  {
    hide Be16, Be32;
    Store(m, 34, Be16(f.srcPort));
    Store(m, 36, Be16(f.dstPort));
    Store(m, 38, Be32(f.seqNum));
    Store(m, 42, Be32(f.ackNum));
  }

  /** Offset, flags, window, urgent pointer and checksum. */
  method FillTcpRest(m: array<Byte>, f: Fields)
    requires m.Length >= 54
    modifies m
    ensures m[46..54] == [0x50, f.flags] + Be16(f.window) + [0, 0, 0, 0]
    ensures m[..46] == old(m[..46]) && m[54..] == old(m[54..])
  {
    hide Be16;
    m[46] := 0x50;
    m[47] := f.flags;
    Store(m, 48, Be16(f.window));
    Store(m, 52, [0, 0]);
    assert m[52] == m[52..54][0] && m[53] == m[52..54][1];
    Store(m, 50, [0, 0]);
    assert m[50] == m[50..52][0] && m[51] == m[50..52][1];
    assert m[52] == 0 && m[53] == 0;
    assert m[46..48] == [0x50, f.flags] && m[50..54] == [0, 0, 0, 0];
    assert m[46..54] == m[46..48] + m[48..50] + m[50..54];
  }

  /** PacketProtTcp::fill_payloadless_tcp_header */
  method FillTcpHeader(m: array<Byte>, f: Fields)
    requires m.Length >= 54
    modifies m
    ensures m[34..54] == TcpHeader(f)
    ensures m[..34] == old(m[..34]) && m[54..] == old(m[54..])
  {
    FillTcpNumbers(m, f);
    FillTcpRest(m, f);
    assert m[34..54] == m[34..46] + m[46..54];
    assert TcpHeader(f) == (Be16(f.srcPort) + Be16(f.dstPort) + Be32(f.seqNum) + Be32(f.ackNum))
                           + ([0x50, f.flags] + Be16(f.window) + [0, 0, 0, 0]);
  }

  method FillIpFront(m: array<Byte>)
    requires m.Length >= 54
    modifies m
    ensures m[14] == 0x45 && m[15] == 0 && m[16] == 0 && m[17] == 40
    ensures m[18] == 0 && m[19] == 0 && m[20] == 0 && m[21] == 0
    ensures m[22] == 128 && m[23] == 6 && m[24] == 0 && m[25] == 0
    ensures forall i :: 0 <= i < 14 || 26 <= i < m.Length ==> m[i] == old(m[i])
  {
    m[14] := 0x45;
    m[15] := 0;
    m[16], m[17] := 0, 40;
    m[18], m[19] := 0, 0;
    m[20], m[21] := 0, 0;
    m[22] := 128;
    m[23] := 6;
    m[24], m[25] := 0, 0;
  }

  /** PacketInfoIpv4::fill_ip_hdr with protocol 6 and 20 bytes after the header. */
  method FillIpHdr(m: array<Byte>, f: Fields)
    requires m.Length >= 54
    modifies m
    ensures m[14..34] == IpHeader(f)
    ensures m[..14] == old(m[..14]) && m[34..] == old(m[34..])
  {
    hide Be32;
    Store(m, 26, Be32(f.srcIp));
    Store(m, 30, Be32(f.dstIp));
    assert m[26..30] == Be32(f.srcIp);
    FillIpFront(m);
    ghost var front: seq<Byte> := [0x45, 0] + [0, 40] + [0, 0, 0, 0, 128, 6, 0, 0];
    assert m[14..26] == front;
    assert Be16(40) == [0, 40];
    assert m[26..30] == Be32(f.srcIp) && m[30..34] == Be32(f.dstIp);
    assert m[14..34] == m[14..26] + m[26..30] + m[30..34];
  }

  /** create_pkt_info in its building form, then fill_payloadless_tcp_packet. */
  method FillPayloadlessTcpPacket(m: array<Byte>, f: Fields)
    requires m.Length >= 54
    modifies m
    ensures m[..] == Frame(f) + old(m[54..])
  {
    hide Be16, EthHeader, IpHeader, TcpHeader;
    Store(m, 12, Be16(0x0800));
    FillEthHdr(m, f);
    assert m[54..] == m[14..][40..];
    FillTcpHeader(m, f);
    assert m[..14] == m[..34][..14];
    FillIpHdr(m, f);
    assert m[34..54] == m[34..][..20] && m[54..] == m[34..][20..];
    assert m[..] == m[..14] + m[14..34] + m[34..54] + m[54..];
  }

  // ----- The two checksums -----

  /** Header length in bytes, from the low half of the first header byte. */
  function HdrLen(s: seq<Byte>, ip: nat): nat
    requires ip + 20 <= |s|
  {
    s[ip] as int % 16 * 4
  }

  function TotalLen(s: seq<Byte>, ip: nat): Word16
    requires ip + 20 <= |s|
  {
    U16(s, ip + 2)
  }

  /** A 16-bit store in machine order, as the checksum fields are written. */
  function Le16(v: Word16): (s: seq<Byte>)
    ensures |s| == 2
  {
    [v % 256, v / 256]
  }

  /** rte_ipv4_cksum */
  function Ipv4Cksum(s: seq<Byte>, ip: nat): Word16
    requires ip + 20 <= |s| && ip + HdrLen(s, ip) <= |s|
  {
    0xFFFF - Residue(WordSum(s[ip..ip + HdrLen(s, ip)]))
  }

  /** The pseudo-header for a given layer-4 length. */
  function Pseudo(s: seq<Byte>, ip: nat, len: Word16): (p: seq<Byte>)
    requires ip + 20 <= |s|
    ensures |p| == 12
  {
    s[ip + 12..ip + 20] + [0, s[ip + 9]] + Be16(len)
  }

  /** The sender's pseudo-header takes the header to be 20 bytes long. */
  function SenderLen(s: seq<Byte>, ip: nat): Word16
    requires ip + 20 <= |s|
  {
    (TotalLen(s, ip) - 20) % 0x1_0000
  }

  /** Where the total length puts the end of the segment that starts at tcp. */
  function SegmentEnd(s: seq<Byte>, ip: nat, tcp: nat): int
    requires ip + 20 <= |s|
  {
    tcp + TotalLen(s, ip) - HdrLen(s, ip)
  }

  /** rte_ipv4_udptcp_cksum */
  function UdpTcpCksum(s: seq<Byte>, ip: nat, tcp: nat): Word16
    requires ip + 20 <= |s| && SegmentEnd(s, ip, tcp) <= |s|
  {
    if TotalLen(s, ip) < HdrLen(s, ip) then 0
    else
      var segment := s[tcp..SegmentEnd(s, ip, tcp)];
      var c := 0xFFFF - Residue(WordSum(segment) + WordSum(Pseudo(s, ip, SenderLen(s, ip))));
      if c == 0 && s[ip + 9] == 17 then 0xFFFF else c
  }

  method ComputeIpv4Cksum(m: array<Byte>, ip: nat) returns (c: Word16)
    requires ip + 20 <= m.Length && ip + HdrLen(m[..], ip) <= m.Length
    ensures c == Ipv4Cksum(m[..], ip)
  {
    hide WordSum, Residue;
    var r := RawCksumReduced(m[..][ip..ip + HdrLen(m[..], ip)]);
    c := 0xFFFF - r;
  }

  /** Two folded sums are added and folded once more. */
  lemma {:induction false} FoldTwoResidues(a: nat, b: nat)
    ensures FoldOnce(Residue(a) as int + Residue(b) as int) == Residue(a + b)
  {
    ResidueAdds(a, b);
    ResidueAdds(b, Residue(a));
    FoldKeepsResidue(Residue(a) + Residue(b));
  }

  method ComputeUdpTcpCksum(m: array<Byte>, ip: nat, tcp: nat) returns (c: Word16)
    requires ip + 20 <= m.Length && SegmentEnd(m[..], ip, tcp) <= m.Length
    ensures c == UdpTcpCksum(m[..], ip, tcp)
  {
    hide WordSum, Residue, FoldOnce, U16;
    var s := m[..];
    if TotalLen(s, ip) < HdrLen(s, ip) { return 0; }
    var segment := s[tcp..SegmentEnd(s, ip, tcp)];
    var pseudo := Pseudo(s, ip, SenderLen(s, ip));
    var a := RawCksumReduced(segment);
    var b := RawCksumReduced(pseudo);
    FoldTwoResidues(WordSum(segment), WordSum(pseudo));
    assert FoldOnce(a as int + b as int) == Residue(WordSum(segment) + WordSum(pseudo));
    c := 0xFFFF - FoldOnce(a as int + b as int);
    if c == 0 && s[ip + 9] == 17 { c := 0xFFFF; }
  }

  // ----- Recalculating both -----

  /** A packet whose headers lie in the buffer one after the other. */
  predicate Laid(s: seq<Byte>, ip: nat, tcp: nat) {
    ip + 20 <= tcp && tcp + 20 <= |s| && ip + HdrLen(s, ip) <= |s| && SegmentEnd(s, ip, tcp) <= |s|
  }

  function Put(s: seq<Byte>, at: nat, v: Word16): (r: seq<Byte>)
    requires at + 2 <= |s|
    ensures |r| == |s|
  {
    s[at := Le16(v)[0]][at + 1 := Le16(v)[1]]
  }

  /** recalculate_checksums: both fields zeroed, the TCP checksum stored, then the IP one. */
  function Rechecksummed(s: seq<Byte>, ip: nat, tcp: nat): (r: seq<Byte>)
    requires Laid(s, ip, tcp)
    ensures |r| == |s|
  {
    var zeroed := Put(Put(s, tcp + 16, 0), ip + 10, 0);
    var t := Put(zeroed, tcp + 16, UdpTcpCksum(zeroed, ip, tcp));
    Put(t, ip + 10, Ipv4Cksum(t, ip))
  }

  method PutWord(m: array<Byte>, at: nat, v: Word16)
    requires at + 2 <= m.Length
    modifies m
    ensures m[..] == Put(old(m[..]), at, v)
  {
    m[at] := Le16(v)[0];
    m[at + 1] := Le16(v)[1];
  }

  method RecalculateChecksums(m: array<Byte>, ip: nat, tcp: nat)
    requires Laid(m[..], ip, tcp)
    modifies m
    ensures m[..] == Rechecksummed(old(m[..]), ip, tcp)
  {
    hide UdpTcpCksum, Ipv4Cksum;
    PutWord(m, tcp + 16, 0);
    PutWord(m, ip + 10, 0);
    var c := ComputeUdpTcpCksum(m, ip, tcp);
    PutWord(m, tcp + 16, c);
    var k := ComputeIpv4Cksum(m, ip);
    PutWord(m, ip + 10, k);
  }

  // ----- What a receiver checks -----

  /** RFC 1071, section 1: the words of the header add up to all ones. */
  predicate IpVerifies(s: seq<Byte>, ip: nat)
    requires ip + 20 <= |s| && ip + HdrLen(s, ip) <= |s|
  {
    Residue(WordSum(s[ip..ip + HdrLen(s, ip)])) == 0xFFFF
  }

  /** Section 3.1 of RFC 793: so do the words of the segment, the two addresses, the
      protocol behind a zero byte, and the segment's true length. */
  predicate TcpVerifies(s: seq<Byte>, ip: nat, tcp: nat)
    requires ip + 20 <= |s| && HdrLen(s, ip) <= TotalLen(s, ip) && SegmentEnd(s, ip, tcp) <= |s|
  {
    var len := TotalLen(s, ip) - HdrLen(s, ip);
    Residue(WordSum(s[tcp..SegmentEnd(s, ip, tcp)])
            + WordSum(s[ip + 12..ip + 20]) + WordSum([0, s[ip + 9], len / 256, len % 256])) == 0xFFFF
  }

  lemma {:induction false} PutSum(s: seq<Byte>, from: nat, to: nat, at: nat, v: Word16)
    requires from <= at && at + 2 <= to <= |s| && (at - from) % 2 == 0
    requires s[at] == 0 && s[at + 1] == 0
    ensures WordSum(Put(s, at, v)[from..to]) == WordSum(s[from..to]) + v
  {
    hide WordSum;
    var a, b, i := s[from..to], Put(s, at, v)[from..to], at - from;
    assert a[..i] == b[..i] && a[i + 2..] == b[i + 2..];
    WordSumStore(a, b, i);
  }

  /** Storing a checksum leaves the lengths, the addresses and the protocol alone. */
  lemma {:induction false} PutKeeps(s: seq<Byte>, ip: nat, tcp: nat, at: nat, v: Word16, len: Word16)
    requires ip + 20 <= |s| && at + 2 <= |s| && (at == ip + 10 || ip + 20 <= at)
    ensures HdrLen(Put(s, at, v), ip) == HdrLen(s, ip) && TotalLen(Put(s, at, v), ip) == TotalLen(s, ip)
    ensures Pseudo(Put(s, at, v), ip, len) == Pseudo(s, ip, len)
    ensures Put(s, at, v)[ip + 9] == s[ip + 9] && (Laid(Put(s, at, v), ip, tcp) <==> Laid(s, ip, tcp))
  {
    assert Put(s, at, v)[ip + 12..ip + 20] == s[ip + 12..ip + 20];
  }

  lemma {:induction false} PseudoWords(s: seq<Byte>, ip: nat, len: Word16)
    requires ip + 20 <= |s|
    ensures WordSum(Pseudo(s, ip, len)) == WordSum(s[ip + 12..ip + 20]) + WordSum([0, s[ip + 9], len / 256, len % 256])
  {
    assert Pseudo(s, ip, len) == s[ip + 12..ip + 20] + [0, s[ip + 9], len / 256, len % 256];
    WordSumConcat(s[ip + 12..ip + 20], [0, s[ip + 9], len / 256, len % 256]);
  }

  lemma {:induction false} PseudoSum(s: seq<Byte>, ip: nat, len: Word16)
    requires ip + 20 <= |s|
    ensures WordSum(Pseudo(s, ip, len)) == WordSum(s[ip + 12..ip + 20] + [0, s[ip + 9]]) + Swap16(len)
  {
    WordSumConcat(s[ip + 12..ip + 20] + [0, s[ip + 9]], Be16(len));
    assert Be16(len)[2..] == [];
    assert WordSum(Be16(len)) == WordAt(Be16(len), 0) + WordSum([]);
  }

  lemma {:induction false} AllOnes(n: nat)
    ensures Residue(n) == 0xFFFF <==> n > 0 && n % 0xFFFF == 0
  {
    if n > 0 {
      var q := (n - 1) / 0xFFFF;
      assert n == q * 0xFFFF + Residue(n);
    }
  }

  lemma {:induction false} SwapIsMultiple(v: Word16)
    ensures Swap16(v) == 256 * v - v / 256 * 0xFFFF
  {}

  lemma {:induction false} OffByLength(n: nat, q: nat, d: nat)
    requires n == q * 0xFFFF - 256 * d && 0 < d <= 40
    ensures Residue(n) != 0xFFFF
  {
    AllOnes(n);
    hide Residue;
    assert n == (q - 1) * 0xFFFF + (0xFFFF - 256 * d);
  }

  /** A checksum taken with a length that is up to 40 too large never verifies. */
  lemma {:induction false} LengthMatters(b: nat, t: Word16, d: nat)
    requires t + d < 0x1_0000 && d <= 40
    ensures Residue(b + Swap16(t) + (0xFFFF - Residue(b + Swap16(t + d)))) == 0xFFFF <==> d == 0
  {
    if d == 0 {
      ComplementCompletes(b + Swap16(t));
    } else {
      var y := b + Swap16(t + d);
      ResidueIsSum(y);
      var k: nat :| y == Residue(y) + k * 0xFFFF;
      SwapIsMultiple(t);
      SwapIsMultiple(t + d);
      var j := (t + d) / 256 - t / 256;
      hide Residue, Swap16;
      assert 0 <= j <= 1;
      OffByLength(b + Swap16(t) + (0xFFFF - Residue(y)), k + 1 + j, d);
    }
  }

  lemma {:induction false} ZeroFields(s: seq<Byte>, ip: nat, tcp: nat, c: Word16)
    requires ip + 20 <= tcp && tcp + 20 <= |s|
    ensures var zeroed := Put(Put(s, tcp + 16, 0), ip + 10, 0);
      zeroed[tcp + 16] == 0 && zeroed[tcp + 17] == 0
      && Put(zeroed, tcp + 16, c)[ip + 10] == 0 && Put(zeroed, tcp + 16, c)[ip + 11] == 0
  {}

  lemma {:induction false} OutsidePut(s: seq<Byte>, at: nat, v: Word16, i: nat, j: nat)
    requires at + 2 <= i <= j <= |s|
    ensures Put(s, at, v)[i..j] == s[i..j]
  {}

  lemma {:induction false} IpHalf(t: seq<Byte>, ip: nat, hdr: nat)
    requires ip + 20 <= |t| && hdr == HdrLen(t, ip) && 20 <= hdr && ip + hdr <= |t|
    requires t[ip + 10] == 0 && t[ip + 11] == 0
    ensures Residue(WordSum(Put(t, ip + 10, Ipv4Cksum(t, ip))[ip..ip + hdr])) == 0xFFFF
  {
    hide WordSum;
    PutSum(t, ip, ip + hdr, ip + 10, Ipv4Cksum(t, ip));
    ComplementCompletes(WordSum(t[ip..ip + hdr]));
  }

  /** The sums that sender and receiver take agree but for the length in the pseudo-header. */
  lemma {:induction false} SenderSum(z: seq<Byte>, ip: nat, tcp: nat, end: nat, len: Word16, base: nat)
    requires Laid(z, ip, tcp) && tcp == ip + HdrLen(z, ip) && end == SegmentEnd(z, ip, tcp)
    requires len == TotalLen(z, ip) - HdrLen(z, ip) && 20 <= len && z[ip + 9] == 6
    requires base == WordSum(z[ip + 12..ip + 20] + [0, z[ip + 9]]) + WordSum(z[tcp..end])
    ensures SenderLen(z, ip) == len + HdrLen(z, ip) - 20
    ensures UdpTcpCksum(z, ip, tcp) == 0xFFFF - Residue(base + Swap16(SenderLen(z, ip)))
  {
    PseudoSum(z, ip, SenderLen(z, ip));
    hide WordSum, Residue, Swap16, Pseudo, HdrLen, TotalLen;
  }

  lemma {:induction false} TcpHalf(z: seq<Byte>, ip: nat, tcp: nat, end: nat, len: Word16)
    requires Laid(z, ip, tcp) && tcp == ip + HdrLen(z, ip) && end == SegmentEnd(z, ip, tcp)
    requires len == TotalLen(z, ip) - HdrLen(z, ip) && 20 <= len && z[ip + 9] == 6
    requires z[tcp + 16] == 0 && z[tcp + 17] == 0
    ensures var sum := WordSum(Put(z, tcp + 16, UdpTcpCksum(z, ip, tcp))[tcp..end]) + WordSum(Pseudo(z, ip, len));
      Residue(sum) == 0xFFFF <==> HdrLen(z, ip) == 20
  {
    var c := UdpTcpCksum(z, ip, tcp);
    var base := WordSum(z[ip + 12..ip + 20] + [0, z[ip + 9]]) + WordSum(z[tcp..end]);
    SenderSum(z, ip, tcp, end, len, base);
    hide UdpTcpCksum, WordSum, Residue, Swap16, Pseudo, TotalLen, Put;
    PutSum(z, tcp, end, tcp + 16, c);
    PseudoSum(z, ip, len);
    LengthMatters(base, len, HdrLen(z, ip) - 20);
  }

  /** Every rewritten packet passes both checks of the receiver, for every content and
      length; with IP options the TCP check fails, because the sender's pseudo-header
      counts them as payload. */
  lemma {:induction false} RecalculatedVerifies(s: seq<Byte>, ip: nat, tcp: nat)
    requires Laid(s, ip, tcp) && tcp == ip + HdrLen(s, ip)
    requires HdrLen(s, ip) + 20 <= TotalLen(s, ip) && s[ip + 9] == 6
    ensures var r := Rechecksummed(s, ip, tcp);
      HdrLen(r, ip) == HdrLen(s, ip) && TotalLen(r, ip) == TotalLen(s, ip)
      && IpVerifies(r, ip)
      && (TcpVerifies(r, ip, tcp) <==> HdrLen(s, ip) == 20)
  {
    hide WordSum, Residue, UdpTcpCksum, Ipv4Cksum, Pseudo, Put, HdrLen, TotalLen;
    var len: Word16 := TotalLen(s, ip) - HdrLen(s, ip);
    PutKeeps(s, ip, tcp, tcp + 16, 0, len);
    PutKeeps(Put(s, tcp + 16, 0), ip, tcp, ip + 10, 0, len);
    var zeroed := Put(Put(s, tcp + 16, 0), ip + 10, 0);
    var c := UdpTcpCksum(zeroed, ip, tcp);
    PutKeeps(zeroed, ip, tcp, tcp + 16, c, len);
    var t := Put(zeroed, tcp + 16, c);
    var k := Ipv4Cksum(t, ip);
    PutKeeps(t, ip, tcp, ip + 10, k, len);
    ZeroFields(s, ip, tcp, c);
    OutsidePut(t, ip + 10, k, tcp, SegmentEnd(s, ip, tcp));
    IpHalf(t, ip, HdrLen(s, ip));
    TcpHalf(zeroed, ip, tcp, SegmentEnd(s, ip, tcp), len);
    PseudoWords(Rechecksummed(s, ip, tcp), ip, len);
  }

  /** What is stored for the other cases: zero for a total length shorter than its header,
      and never zero for UDP, where zero means that there is no checksum. */
  lemma {:induction false} OtherChecksums(s: seq<Byte>, ip: nat, tcp: nat)
    requires ip + 20 <= |s| && SegmentEnd(s, ip, tcp) <= |s|
    ensures TotalLen(s, ip) < HdrLen(s, ip) ==> UdpTcpCksum(s, ip, tcp) == 0
    ensures TotalLen(s, ip) >= HdrLen(s, ip) && s[ip + 9] == 17 ==>
      UdpTcpCksum(s, ip, tcp) != 0
      && Residue(WordSum(s[tcp..SegmentEnd(s, ip, tcp)]) + WordSum(Pseudo(s, ip, SenderLen(s, ip)))
                 + UdpTcpCksum(s, ip, tcp)) == 0xFFFF
  {
    if TotalLen(s, ip) >= HdrLen(s, ip) {
      var sum := WordSum(s[tcp..SegmentEnd(s, ip, tcp)]) + WordSum(Pseudo(s, ip, SenderLen(s, ip)));
      ComplementCompletes(sum);
      if Residue(sum) == 0xFFFF { ResidueShift(sum, 1); }
      hide WordSum, Pseudo, SenderLen, TotalLen, HdrLen, Residue;
    }
  }

  /** Only the two checksum fields change, so every field still parses to its value. */
  lemma {:induction false} RecalculationKeeps(s: seq<Byte>, ip: nat, tcp: nat)
    requires Laid(s, ip, tcp)
    ensures forall i :: 0 <= i < |s| && i !in {ip + 10, ip + 11, tcp + 16, tcp + 17} ==>
      Rechecksummed(s, ip, tcp)[i] == s[i]
  {}

  lemma {:induction false} SameParse(s: seq<Byte>, r: seq<Byte>, l4: nat)
    requires |r| == |s| && 34 <= l4 && l4 + 20 <= |s|
    requires forall i :: 0 <= i < |s| && i !in {24, 25, l4 + 16, l4 + 17} ==> r[i] == s[i]
    ensures Parse(r, l4) == Parse(s, l4) && CreatePktInfo(r) == CreatePktInfo(s)
  {
    assert r[6..12] == s[6..12] && r[..6] == s[..6];
  }

  /** The reply a proxy builds: it parses back to its fields and passes both checks. */
  lemma {:induction false} BuiltPacketVerifies(f: Fields, rest: seq<Byte>)
    ensures var s := Frame(f) + rest;
      Laid(s, 14, 34) && var r := Rechecksummed(s, 14, 34);
      CreatePktInfo(r) == PktInfo(IPv4TCP, 34) && Parse(r, 34) == f && Payloadless(r)
      && HdrLen(r, 14) == 20 && TotalLen(r, 14) == 40
      && IpVerifies(r, 14) && TcpVerifies(r, 14, 34)
  {
    var s := Frame(f) + rest;
    FrameBytes(f, rest);
    FrameIsPayloadless(f, rest);
    BuildThenParse(f, rest);
    RecalculatedVerifies(s, 14, 34);
    RecalculationKeeps(s, 14, 34);
    SameParse(s, Rechecksummed(s, 14, 34), 34);
  }

  // ----- Rewriting one field -----

  /** The bytes that set_seq_num and set_ack_num leave. */
  function SeqSet(s: seq<Byte>, l4: nat, v: Word32): (r: seq<Byte>)
    requires l4 + 20 <= |s|
    ensures |r| == |s|
  {
    Spliced(s, l4 + 4, Be32(v))
  }

  function AckSet(s: seq<Byte>, l4: nat, v: Word32): (r: seq<Byte>)
    requires l4 + 20 <= |s|
    ensures |r| == |s|
  {
    Spliced(s, l4 + 8, Be32(v))
  }

  /** One field takes the value; the others, and all other bytes, keep theirs. */
  lemma {:induction false} SeqSetParses(s: seq<Byte>, l4: nat, v: Word32)
    requires 34 <= l4 && l4 + 20 <= |s|
    ensures var r := SeqSet(s, l4, v);
      Parse(r, l4) == Parse(s, l4).(seqNum := v) && r[..l4 + 4] == s[..l4 + 4] && r[l4 + 8..] == s[l4 + 8..]
  {
    var r := SeqSet(s, l4, v);
    assert r[l4 + 4..l4 + 8] == Be32(v);
    FieldsReadBack(0, v);
    SliceReads(r, l4 + 4, Be32(v));
    assert r[6..12] == s[6..12] && r[..6] == s[..6];
  }

  lemma {:induction false} AckSetParses(s: seq<Byte>, l4: nat, v: Word32)
    requires 34 <= l4 && l4 + 20 <= |s|
    ensures var r := AckSet(s, l4, v);
      Parse(r, l4) == Parse(s, l4).(ackNum := v) && r[..l4 + 8] == s[..l4 + 8] && r[l4 + 12..] == s[l4 + 12..]
  {
    var r := AckSet(s, l4, v);
    assert r[l4 + 8..l4 + 12] == Be32(v);
    FieldsReadBack(0, v);
    SliceReads(r, l4 + 8, Be32(v));
    assert r[6..12] == s[6..12] && r[..6] == s[..6];
  }

  method SetSeqNum(m: array<Byte>, l4: nat, v: Word32)
    requires 34 <= l4 && l4 + 20 <= m.Length
    modifies m
    ensures m[..] == SeqSet(old(m[..]), l4, v)
    ensures Parse(m[..], l4) == old(Parse(m[..], l4)).(seqNum := v)
    ensures m[..l4 + 4] == old(m[..l4 + 4]) && m[l4 + 8..] == old(m[l4 + 8..])
  {
    SeqSetParses(m[..], l4, v);
    hide Be32, Parse;
    CopyInto(m, l4 + 4, Be32(v));
    assert m[..l4 + 4] == m[..][..l4 + 4] && m[l4 + 8..] == m[..][l4 + 8..];
  }

  method SetAckNum(m: array<Byte>, l4: nat, v: Word32)
    requires 34 <= l4 && l4 + 20 <= m.Length
    modifies m
    ensures m[..] == AckSet(old(m[..]), l4, v)
    ensures Parse(m[..], l4) == old(Parse(m[..], l4)).(ackNum := v)
    ensures m[..l4 + 8] == old(m[..l4 + 8]) && m[l4 + 12..] == old(m[l4 + 12..])
  {
    AckSetParses(m[..], l4, v);
    hide Be32, Parse;
    CopyInto(m, l4 + 8, Be32(v));
    assert m[..l4 + 8] == m[..][..l4 + 8] && m[l4 + 12..] == m[..][l4 + 12..];
  }
}
