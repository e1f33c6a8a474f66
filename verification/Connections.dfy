/** The connection table and what one TCP packet does to it: SYN cookies towards the
    outside, splicing of sequence numbers, and the closing handshake. */
module Connections {
  import opened ConnectionHash
  import opened Cookie
  import opened Mbufs

  const SYN: bv8 := 0x02
  const RST: bv8 := 0x04
  const FIN: bv8 := 0x01
  const ACK: bv8 := 0x10
  const SYNACK: bv8 := 0x12

  predicate Has(h: Header, flags: bv8) { h.flags & flags == flags }

  /** Sequence numbers are taken modulo 2^32. */
  function Plus(a: bv32, b: bv32): bv32 { a + b }

  function Minus(a: bv32, b: bv32): bv32 { a - b }

  /** One connection: the offset between the two sequence spaces, the progress of the
      closing handshake, and the packets held until the internal host answers. */
  datatype Info = Info(
    offset: bv32, finSeenToInside: bool, finSeenToOutside: bool,
    ackToInsideExpected: bool, ackToOutsideExpected: bool, held: seq<Pointer>)

  type Table = map<Data, Info>

  /** Info's constructor pushes its pointer even when it is null. */
  function Entry(p: Pointer): Info { Info(0, false, false, false, false, [p]) }

  function KeyToInside(h: Header): Data { Data(h.srcIp, h.dstIp, h.srcPort, h.dstPort) }
  function KeyToOutside(h: Header): Data { Data(h.dstIp, h.srcIp, h.dstPort, h.srcPort) }

  // ----- The packets the proxy creates -----

  /** The SYN-ACK that answers a SYN in the internal host's name. */
  function CookieReply(hash: Hash, now: bv8, h: Header): Header {
    Header(true, h.dstMac, h.srcMac, h.dstIp, h.srcIp, h.dstPort, h.srcPort,
           Issue(hash, now, KeyToInside(h)), Plus(h.seqNum, 1), SYNACK, h.window)
  }

  /** The SYN to the internal host, once the external one has shown its cookie. */
  function AdmittedSyn(h: Header): Header {
    Header(true, h.srcMac, h.dstMac, h.srcIp, h.dstIp, h.srcPort, h.dstPort,
           Minus(h.seqNum, 1), 123, SYN, h.window)
  }

  /** The RST for a wrong cookie; it goes with the packets to the inside. */
  function CookieRst(h: Header): Header {
    Header(true, h.dstMac, h.srcMac, h.srcIp, h.dstIp, h.srcPort, h.dstPort, h.ackNum, 0, RST, h.window)
  }

  function WithAck(h: Header, ack: bv32): Header { h.(ackNum := ack) }
  function WithSeq(h: Header, seqNum: bv32): Header { h.(seqNum := seqNum) }

  // ----- What happens to one packet -----

  /** Keep and Rewrite leave the packet in its slot. Reply adds a packet to the other
      container and drops this one; Admit and Reset add one to the same container and
      hold or drop this one; Queue holds it. Release moves the first held packet to the
      inside container. Crash stands for a null dereference. */
  datatype Verdict =
    | Keep
    | Rewrite(h: Header)
    | Drop
    | Reply(h: Header)
    | Admit(h: Header)
    | Reset(h: Header)
    | Queue
    | Release(held: seq<Pointer>, isn: bv32, offset: bv32)
    | Crash

  /** The new table, the packet's fate, and the held buffers nothing refers to any more. */
  datatype Treated = Treated(conns: Table, verdict: Verdict, lost: seq<nat>)

  /** Erasing an entry forgets the packets it still held. */
  function Erase(conns: Table, d: Data, verdict: Verdict): Treated {
    Treated(conns - {d}, verdict, if d in conns then Live(conns[d].held) else [])
  }

  function Update(conns: Table, d: Data, info: Info, verdict: Verdict): Treated {
    Treated(conns[d := info], verdict, [])
  }

  function Unchanged(conns: Table, verdict: Verdict): Treated { Treated(conns, verdict, []) }

  /** Acknowledgment numbers go back to the internal host's sequence space. */
  function AckInward(info: Info, h: Header): Verdict { Rewrite(WithAck(h, Minus(h.ackNum, info.offset))) }

  /** Sequence numbers go out in the cookie's sequence space. */
  function SeqOutward(info: Info, h: Header): Verdict { Rewrite(WithSeq(h, Plus(h.seqNum, info.offset))) }

  function FinToInside(conns: Table, d: Data, h: Header): Treated {
    if d !in conns then Unchanged(conns, Drop)
    else
      var info := conns[d];
      if info.finSeenToOutside then
        Update(conns, d, info.(finSeenToInside := true, ackToOutsideExpected := true), AckInward(info, h))
      else if !info.finSeenToInside then
        Update(conns, d, info.(finSeenToInside := true), AckInward(info, h))
      else Unchanged(conns, Keep)
  }

  function AckToInside(conns: Table, hash: Hash, now: bv8, d: Data, id: nat, h: Header): Treated {
    if d !in conns then
      if Check(hash, now, Minus(h.ackNum, 1), d) then
        Update(conns, d, Entry(Mbuf(id)), Admit(AdmittedSyn(h)))
      else Unchanged(conns, Reset(CookieRst(h)))
    else
      var info := conns[d];
      if info.finSeenToInside && info.finSeenToOutside && info.ackToInsideExpected then
        Erase(conns, d, AckInward(info, h))
      else if info.held != [] then
        Update(conns, d, info.(held := info.held + [Mbuf(id)]), Queue)
      else Unchanged(conns, AckInward(info, h))
  }

  /** One packet from the external to the internal network. */
  function JudgeToInside(conns: Table, hash: Hash, now: bv8, id: nat, h: Header): Treated {
    var d := KeyToInside(h);
    if Has(h, SYNACK) then
      if d in conns then Unchanged(conns, Keep) else Update(conns, d, Entry(Null), Keep)
    else if Has(h, SYN) then Unchanged(conns, Reply(CookieReply(hash, now, h)))
    else if Has(h, RST) then Erase(conns, d, Keep)
    else if Has(h, FIN) then FinToInside(conns, d, h)
    else if Has(h, ACK) then AckToInside(conns, hash, now, d, id, h)
    else Unchanged(conns, Keep)
  }

  ghost predicate InRange(s: seq<Pointer>, n: nat) {
    forall k :: 0 <= k < |s| && s[k].Mbuf? ==> s[k].id < n
  }

  /** All held buffers exist. */
  ghost predicate HeldInRange(conns: Table, n: nat) {
    forall d :: d in conns ==> InRange(conns[d].held, n)
  }

  function SynAckToOutside(conns: Table, mem: seq<Header>, d: Data, h: Header): Treated
    requires HeldInRange(conns, |mem|)
  {
    if d !in conns then Unchanged(conns, Drop)
    else if conns[d].held == [] then Unchanged(conns, Keep)
    else if Null in conns[d].held then Unchanged(conns, Crash)
    else
      var held := conns[d].held;
      var offset := Minus(Minus(mem[held[0].id].ackNum, h.seqNum), 1);
      Treated(conns[d := conns[d].(offset := offset, held := [])], Release(held, h.seqNum, offset), Live(held[1..]))
  }

  function RstToOutside(conns: Table, d: Data, h: Header): Treated {
    if d !in conns then Unchanged(conns, Drop) else Erase(conns, d, SeqOutward(conns[d], h))
  }

  function FinToOutside(conns: Table, d: Data, h: Header): Treated {
    if d !in conns then Unchanged(conns, Drop)
    else
      var info := conns[d];
      if info.finSeenToInside then
        Update(conns, d, info.(finSeenToOutside := true, ackToInsideExpected := true), SeqOutward(info, h))
      else if !info.finSeenToOutside then
        Update(conns, d, info.(finSeenToOutside := true), SeqOutward(info, h))
      else Unchanged(conns, Keep)
  }

  function AckToOutside(conns: Table, d: Data, h: Header): Treated {
    if d !in conns then Update(conns, d, Entry(Null), Keep)
    else
      var info := conns[d];
      if info.finSeenToInside && info.finSeenToOutside && info.ackToOutsideExpected then
        Erase(conns, d, SeqOutward(info, h))
      else Unchanged(conns, SeqOutward(info, h))
  }

  /** One packet from the internal to the external network. */
  function JudgeToOutside(conns: Table, mem: seq<Header>, h: Header): Treated
    requires HeldInRange(conns, |mem|)
  {
    var d := KeyToOutside(h);
    if Has(h, SYNACK) then SynAckToOutside(conns, mem, d, h)
    else if Has(h, SYN) then Unchanged(conns, Keep)
    else if Has(h, RST) then RstToOutside(conns, d, h)
    else if Has(h, FIN) then FinToOutside(conns, d, h)
    else if Has(h, ACK) then AckToOutside(conns, d, h)
    else Unchanged(conns, Keep)
  }

  // ----- The closing handshake -----

  /** An acknowledgment is expected exactly after FINs in both directions. */
  predicate Closing(info: Info) {
    info.ackToInsideExpected || info.ackToOutsideExpected <==> info.finSeenToInside && info.finSeenToOutside
  }

  ghost predicate AllClosing(conns: Table) {
    forall d :: d in conns ==> Closing(conns[d])
  }

  /** FIN and acknowledgment flags are never taken back. */
  predicate Advances(before: Info, after: Info) {
    && (before.finSeenToInside ==> after.finSeenToInside)
    && (before.finSeenToOutside ==> after.finSeenToOutside)
    && (before.ackToInsideExpected ==> after.ackToInsideExpected)
    && (before.ackToOutsideExpected ==> after.ackToOutsideExpected)
    && (Closing(before) ==> Closing(after))
  }

  /** An entry leaves only on RST or on a non-FIN ACK after both FINs. */
  predicate Leaves(before: Info, h: Header) {
    Has(h, RST) || (Has(h, ACK) && !Has(h, FIN) && before.finSeenToInside && before.finSeenToOutside)
  }

  /** An entry appears only for a packet with ACK, and with no flag set. */
  predicate Starts(after: Info, h: Header) {
    && Has(h, ACK) && after.offset == 0
    && !after.finSeenToInside && !after.finSeenToOutside
    && !after.ackToInsideExpected && !after.ackToOutsideExpected
  }

  /** One packet changes at most the entry of its own connection. */
  predicate Progress(before: Table, after: Table, d: Data, h: Header) {
    || after == before
    || (d in before && Leaves(before[d], h) && after == before - {d})
    || (d in after && after == before[d := after[d]]
        && if d in before then Advances(before[d], after[d]) else Starts(after[d], h))
  }

  lemma {:induction false} ProgressKeepsClosing(before: Table, after: Table, d: Data, h: Header)
    requires Progress(before, after, d, h) && AllClosing(before)
    ensures AllClosing(after)
  {}

  lemma {:induction false} EraseProgress(conns: Table, d: Data, h: Header, v: Verdict)
    requires d in conns ==> Leaves(conns[d], h)
    ensures Progress(conns, Erase(conns, d, v).conns, d, h)
  {
    if d !in conns { assert conns - {d} == conns; }
  }

  lemma {:induction false} UpdateProgress(conns: Table, d: Data, info: Info, h: Header)
    requires if d in conns then Advances(conns[d], info) else Starts(info, h)
    ensures Progress(conns, conns[d := info], d, h)
  {
    assert conns[d := info] == conns[d := conns[d := info][d]];
  }

  lemma {:induction false} SynAckBits(h: Header)
    ensures Has(h, SYNACK) <==> Has(h, SYN) && Has(h, ACK)
  {}

  /** Section 3.1 of RFC 793: the flags are single bits of the byte, FIN the lowest. */
  lemma {:induction false} FlagBits(h: Header)
    ensures Has(h, FIN) <==> h.flags & 1 != 0
    ensures Has(h, SYN) <==> (h.flags >> 1) & 1 != 0
    ensures Has(h, RST) <==> (h.flags >> 2) & 1 != 0
    ensures Has(h, ACK) <==> (h.flags >> 4) & 1 != 0
  {}

  /** Both directions of a connection have one key, which names the external host first. */
  lemma {:induction false} OneKey(h: Header, g: Header)
    ensures KeyToInside(h) == KeyToOutside(g) <==>
      h.srcIp == g.dstIp && h.dstIp == g.srcIp && h.srcPort == g.dstPort && h.dstPort == g.srcPort
    ensures var d := KeyToInside(h);
      h.srcIp == d.extip && h.dstIp == d.intip && h.srcPort == d.extport && h.dstPort == d.intport
  {}

  lemma {:induction false} SameTable(conns: Table, d: Data, h: Header)
    ensures Progress(conns, conns, d, h)
  {}

  lemma {:induction false} ToInsideProgress(conns: Table, hash: Hash, now: bv8, id: nat, h: Header)
    ensures Progress(conns, JudgeToInside(conns, hash, now, id, h).conns, KeyToInside(h), h)
  {
    var d := KeyToInside(h);
    var after := JudgeToInside(conns, hash, now, id, h).conns;
    SynAckBits(h);
    hide Has, Check, Live, Minus, Plus, Progress, KeyToInside;
    if d !in conns || Leaves(conns[d], h) { EraseProgress(conns, d, h, Keep); }
    if d in after && (if d in conns then Advances(conns[d], after[d]) else Starts(after[d], h)) {
      UpdateProgress(conns, d, after[d], h);
    }
    SameTable(conns, d, h);
  }

  lemma {:induction false} ToOutsideProgress(conns: Table, mem: seq<Header>, h: Header)
    requires HeldInRange(conns, |mem|)
    ensures Progress(conns, JudgeToOutside(conns, mem, h).conns, KeyToOutside(h), h)
  {
    var d := KeyToOutside(h);
    var after := JudgeToOutside(conns, mem, h).conns;
    SynAckBits(h);
    hide Has, Live, Minus, Plus, Progress, KeyToOutside;
    if d !in conns || Leaves(conns[d], h) { EraseProgress(conns, d, h, Keep); }
    if d in after && (if d in conns then Advances(conns[d], after[d]) else Starts(after[d], h)) {
      UpdateProgress(conns, d, after[d], h);
    }
    SameTable(conns, d, h);
  }

  predicate Plain(h: Header) { !Has(h, SYN) && !Has(h, RST) }

  /** An ACK and nothing that is treated otherwise. */
  predicate PlainAck(h: Header) { Plain(h) && !Has(h, FIN) && Has(h, ACK) }

  /** A closing ACK for the given expectation. */
  predicate Closes(info: Info, expected: bool, h: Header) {
    PlainAck(h) && info.finSeenToInside && info.finSeenToOutside && expected
  }

  /** Exactly when a packet to the inside makes, changes or erases its entry. */
  lemma {:induction false} ToInsideExactly(conns: Table, hash: Hash, now: bv8, id: nat, h: Header)
    ensures var d := KeyToInside(h); var after := JudgeToInside(conns, hash, now, id, h).conns;
      if d !in conns then
        && (d in after <==> Has(h, SYNACK) || (PlainAck(h) && Check(hash, now, Minus(h.ackNum, 1), d)))
        && (d in after ==> after[d] == Entry(if Has(h, SYNACK) then Null else Mbuf(id)))
      else if d !in after then
        (Has(h, RST) && !Has(h, SYN)) || Closes(conns[d], conns[d].ackToInsideExpected, h)
      else
        var info, next := conns[d], after[d];
        && !(Has(h, RST) && !Has(h, SYN)) && !Closes(info, info.ackToInsideExpected, h)
        && next.offset == info.offset && next.finSeenToOutside == info.finSeenToOutside
        && next.ackToInsideExpected == info.ackToInsideExpected
        && (next.finSeenToInside <==> info.finSeenToInside || (Plain(h) && Has(h, FIN)))
        && (next.ackToOutsideExpected <==>
              (info.ackToOutsideExpected || (Plain(h) && Has(h, FIN) && info.finSeenToOutside)))
        && next.held == info.held
           + if PlainAck(h) && info.held != [] then [Mbuf(id)] else []
  {
    SynAckBits(h);
    hide Has, Check, Live, Minus, Plus, KeyToInside, CookieReply, CookieRst, AdmittedSyn, AckInward;
  }

  /** Exactly when a packet to the outside makes, changes or erases its entry. */
  lemma {:induction false} ToOutsideExactly(conns: Table, mem: seq<Header>, h: Header)
    requires HeldInRange(conns, |mem|)
    ensures var d := KeyToOutside(h); var t := JudgeToOutside(conns, mem, h); var after := t.conns;
      if d !in conns then (d in after <==> PlainAck(h)) && (d in after ==> after[d] == Entry(Null))
      else if d !in after then
        (Has(h, RST) && !Has(h, SYN)) || Closes(conns[d], conns[d].ackToOutsideExpected, h)
      else
        var info, next := conns[d], after[d];
        && !(Has(h, RST) && !Has(h, SYN)) && !Closes(info, info.ackToOutsideExpected, h)
        && next.finSeenToInside == info.finSeenToInside
        && next.ackToOutsideExpected == info.ackToOutsideExpected
        && (next.finSeenToOutside <==> info.finSeenToOutside || (Plain(h) && Has(h, FIN)))
        && (next.ackToInsideExpected <==> info.ackToInsideExpected || (Plain(h) && Has(h, FIN) && info.finSeenToInside))
        && (if Has(h, SYNACK) && info.held != [] && Null !in info.held
            then next.held == [] && t.verdict.Release? && t.verdict.held == info.held
            else next.held == info.held && next.offset == info.offset && !t.verdict.Release?)
  {
    SynAckBits(h);
    hide Has, Live, Minus, Plus, KeyToOutside;
  }

  /** Exactly which packets are dropped without an answer: those that presuppose a
      connection the table does not know. And exactly which are answered instead: a SYN
      without ACK, and an ACK that shows no cookie for a connection without entry. */
  lemma {:induction false} StraysDropped(conns: Table, mem: seq<Header>, hash: Hash, now: bv8, id: nat, h: Header)
    requires HeldInRange(conns, |mem|)
    ensures var v := JudgeToInside(conns, hash, now, id, h).verdict; var d := KeyToInside(h);
      && (v.Drop? <==> d !in conns && Plain(h) && Has(h, FIN))
      && (v.Reply? <==> Has(h, SYN) && !Has(h, ACK))
      && (v.Reset? <==> d !in conns && PlainAck(h) && !Check(hash, now, Minus(h.ackNum, 1), d))
    ensures JudgeToOutside(conns, mem, h).verdict.Drop? <==>
      KeyToOutside(h) !in conns && (Has(h, SYNACK) || (!Has(h, SYN) && (Has(h, RST) || Has(h, FIN))))
  {
    SynAckBits(h);
    hide Has, Check, Live, Minus, Plus, KeyToInside, KeyToOutside, CookieReply, CookieRst, AdmittedSyn;
  }

  /** What a packet makes the program forget: everything an erased entry held, and what a
      released one held behind the first. */
  lemma {:induction false} LostToInside(conns: Table, hash: Hash, now: bv8, id: nat, h: Header)
    ensures var t := JudgeToInside(conns, hash, now, id, h); var d := KeyToInside(h);
      t.lost == if d in conns && d !in t.conns then Live(conns[d].held) else []
  {
    hide Has, Check, Live, Minus, Plus, KeyToInside, CookieReply, CookieRst, AdmittedSyn, AckInward;
  }

  lemma {:induction false} LostToOutside(conns: Table, mem: seq<Header>, h: Header)
    requires HeldInRange(conns, |mem|)
    ensures var t := JudgeToOutside(conns, mem, h); var d := KeyToOutside(h);
      && (t.verdict.Release? ==> d in t.conns && d in conns && conns[d].held != [])
      && t.lost == if d in conns && d !in t.conns then Live(conns[d].held)
                   else if t.verdict.Release? then Live(conns[d].held[1..]) else []
  {
    hide Has, Live, Minus, Plus, KeyToOutside;
  }

  // ----- Answering SYNs without state -----

  /** A SYN without ACK changes nothing in the table; its answer has both endpoints
      swapped, acknowledges the SYN and keeps its window. Its sequence number carries the
      timestamp and 24 bits of the hash, and stays good for this tick and the next. */
  lemma {:induction false} SynIsStateless(conns: Table, hash: Hash, now: bv8, id: nat, h: Header)
    requires Has(h, SYN) && !Has(h, ACK)
    ensures var t := JudgeToInside(conns, hash, now, id, h); var r := CookieReply(hash, now, h);
      t == Treated(conns, Reply(r), [])
      && r.srcIp == h.dstIp && r.dstIp == h.srcIp && r.srcPort == h.dstPort && r.dstPort == h.srcPort
      && r.srcMac == h.dstMac && r.dstMac == h.srcMac
      && r.tcp && r.flags == SYNACK && r.ackNum == h.seqNum + 1 && r.window == h.window
      && Bits(r.seqNum, hash(now, KeyToInside(h)), now)
      && Check(hash, now, r.seqNum, KeyToInside(h)) && Check(hash, now + 1, r.seqNum, KeyToInside(h))
  {
    SynAckBits(h);
    BackOne(now + 1, now);
    TruncatedKeepsHash(hash(now, KeyToInside(h)), now);
    hide Has, Check, Truncated, Before;
    IssuedAccepted(hash, now, now, KeyToInside(h));
    IssuedAccepted(hash, now + 1, now, KeyToInside(h));
  }

  lemma {:induction false} PlusOneMinusOne(a: bv32)
    ensures Minus(Plus(a, 1), 1) == a
  {}

  /** The ACK that completes the handshake is admitted, now or one tick later, and the
      SYN sent inside is that ACK with the external host's first sequence number, from and
      to the same addresses. */
  lemma {:induction false} HandshakeAdmits(
      conns: Table, hash: Hash, sent: bv8, now: bv8, syn: Header, id: nat, ack: Header)
    requires KeyToInside(ack) == KeyToInside(syn) && KeyToInside(syn) !in conns
    requires Has(ack, ACK) && !Has(ack, SYN) && !Has(ack, RST) && !Has(ack, FIN)
    requires ack.ackNum == Plus(CookieReply(hash, sent, syn).seqNum, 1) && ack.seqNum == Plus(syn.seqNum, 1)
    requires now == sent || now == sent + 1
    ensures var t := JudgeToInside(conns, hash, now, id, ack);
      t.verdict == Admit(ack.(tcp := true, seqNum := syn.seqNum, ackNum := 123, flags := SYN))
      && KeyToInside(AdmittedSyn(ack)) == KeyToInside(syn)
      && t.conns == conns[KeyToInside(syn) := Entry(Mbuf(id))]
  {
    SynAckBits(ack);
    BackOne(now, sent);
    PlusOneMinusOne(syn.seqNum);
    PlusOneMinusOne(CookieReply(hash, sent, syn).seqNum);
    hide Has, Check, Issue, Before, Plus, Minus;
    IssuedAccepted(hash, now, sent, KeyToInside(syn));
  }

  lemma {:induction false} CheckDecides(conns: Table, hash: Hash, now: bv8, id: nat, h: Header)
    requires KeyToInside(h) !in conns
    requires Has(h, ACK) && !Has(h, SYN) && !Has(h, RST) && !Has(h, FIN)
    ensures JudgeToInside(conns, hash, now, id, h) ==
      if Check(hash, now, Minus(h.ackNum, 1), KeyToInside(h))
      then Treated(conns[KeyToInside(h) := Entry(Mbuf(id))], Admit(AdmittedSyn(h)), [])
      else Treated(conns, Reset(CookieRst(h)), [])
  {
    SynAckBits(h);
    hide Has, Check, Minus, AdmittedSyn, CookieRst, KeyToInside;
  }

  /** The SYN sent inside is the ACK with the number before its own; the RST has its MAC
      addresses swapped and the number that it acknowledged. */
  lemma {:induction false} CreatedFrom(h: Header)
    ensures AdmittedSyn(h) == h.(tcp := true, seqNum := h.seqNum - 1, ackNum := 123, flags := SYN)
    ensures CookieRst(h) == h.(tcp := true, srcMac := h.dstMac, dstMac := h.srcMac,
                               seqNum := h.ackNum, ackNum := 0, flags := RST)
  {}

  /** The number below the one that the ACK acknowledges carries the hash of its connection
      and the timestamp of this tick or of the one before. */
  predicate ShowsCookie(hash: Hash, now: bv8, h: Header) {
    Shows(hash, now, Minus(h.ackNum, 1), KeyToInside(h))
  }

  lemma {:induction false} CheckIsShown(hash: Hash, now: bv8, h: Header)
    ensures Check(hash, now, Minus(h.ackNum, 1), KeyToInside(h)) <==> ShowsCookie(hash, now, h)
  {
    hide Check, Shows, Minus, KeyToInside;
    AcceptedBits(hash, now, Minus(h.ackNum, 1), KeyToInside(h));
  }

  /** Without an entry an ACK is admitted exactly when the number below the one it
      acknowledges shows the hash of its connection, under the timestamp of this tick or of
      the one before. Any other is dropped, leaves no trace in the table, and makes a RST
      for its own connection whose sequence number is what it acknowledged. */
  lemma {:induction false} OnlyCookiesAdmit(conns: Table, hash: Hash, now: bv8, id: nat, h: Header)
    requires KeyToInside(h) !in conns
    requires Has(h, ACK) && !Has(h, SYN) && !Has(h, RST) && !Has(h, FIN)
    ensures var t := JudgeToInside(conns, hash, now, id, h); var d := KeyToInside(h);
      t == if ShowsCookie(hash, now, h) then Treated(conns[d := Entry(Mbuf(id))], Admit(AdmittedSyn(h)), [])
           else Treated(conns, Reset(CookieRst(h)), [])
  {
    CheckDecides(conns, hash, now, id, h);
    CheckIsShown(hash, now, h);
    hide JudgeToInside, Has, Check, ShowsCookie, Minus, AdmittedSyn, CookieRst, KeyToInside;
  }

  // ----- Splicing -----

  /** Admitted with a cookie and waiting for the internal host: the packet that carried
      the cookie is held first. */
  ghost predicate Opened(conns: Table, mem: seq<Header>, d: Data, cookie: bv32) {
    && d in conns && conns[d].offset == 0
    && |conns[d].held| > 0 && Null !in conns[d].held
    && InRange(conns[d].held, |mem|)
    && mem[conns[d].held[0].id].ackNum == Plus(cookie, 1)
  }

  /** The offset is fixed and nothing is held any more. */
  predicate Spliced(conns: Table, d: Data, cookie: bv32, isn: bv32) {
    d in conns && conns[d].held == [] && conns[d].offset == Minus(cookie, isn)
  }

  lemma {:induction false} Inward(cookie: bv32, isn: bv32, k: bv32)
    ensures Minus(Plus(cookie, k), Minus(cookie, isn)) == Plus(isn, k)
  {
    assert Minus(cookie + k, cookie - isn) == isn + k;
  }

  lemma {:induction false} Outward(cookie: bv32, isn: bv32, k: bv32)
    ensures Plus(Plus(isn, k), Minus(cookie, isn)) == Plus(cookie, k)
  {
    assert Plus(isn + k, cookie - isn) == cookie + k;
  }

  lemma {:induction false} FirstOffset(cookie: bv32, isn: bv32)
    ensures Minus(Minus(Plus(cookie, 1), isn), 1) == Minus(cookie, isn)
  {
    assert Minus(cookie + 1, isn) == cookie + 1 - isn;
    assert Minus(cookie + 1 - isn, 1) == cookie - isn;
  }

  lemma {:induction false} OffsetTranslates(cookie: bv32, isn: bv32, k: bv32)
    ensures Minus(Plus(cookie, k), Minus(cookie, isn)) == Plus(isn, k)
    ensures Plus(Plus(isn, k), Minus(cookie, isn)) == Plus(cookie, k)
    ensures Minus(Minus(Plus(cookie, 1), isn), 1) == Minus(cookie, isn)
  {
    hide Plus, Minus;
    Inward(cookie, isn, k);
    Outward(cookie, isn, k);
    FirstOffset(cookie, isn);
  }

  /** While a connection waits, a packet from outside either leaves it waiting, perhaps
      with one more packet held, or resets it or ends its close. */
  lemma {:induction false} OpenedToInside(
    conns: Table, mem: seq<Header>, hash: Hash, now: bv8, id: nat, h: Header, d: Data, cookie: bv32)
    requires Opened(conns, mem, d, cookie)
    ensures var after := JudgeToInside(conns, hash, now, id, h).conns;
      d in after ==>
        after[d].offset == 0 && (after[d].held == conns[d].held || after[d].held == conns[d].held + [Mbuf(id)])
  {
    var waiting := conns[d];
    assert waiting.held != [] && waiting.offset == 0;
    hide Has, Check, Live, Minus, Plus, Opened, KeyToInside, CookieReply, CookieRst, AdmittedSyn, AckInward;
  }

  /** The first SYN-ACK from inside fixes the offset at cookie - isn; nothing else
      from inside moves the offset or the held packets. */
  lemma {:induction false} OpenedToOutside(conns: Table, mem: seq<Header>, h: Header, d: Data, cookie: bv32)
    requires HeldInRange(conns, |mem|) && Opened(conns, mem, d, cookie)
    ensures var t := JudgeToOutside(conns, mem, h);
      if Has(h, SYNACK) && KeyToOutside(h) == d then
        Spliced(t.conns, d, cookie, h.seqNum)
        && t.verdict == Release(conns[d].held, h.seqNum, Minus(cookie, h.seqNum))
      else d in t.conns ==> t.conns[d].offset == 0 && t.conns[d].held == conns[d].held
  {
    OffsetTranslates(cookie, h.seqNum, 0);
    hide Has, Live, Minus, Plus;
  }

  /** From then on the offset never changes until the entry is erased. */
  lemma {:induction false} SplicedToInside(
    conns: Table, hash: Hash, now: bv8, id: nat, h: Header, d: Data, cookie: bv32, isn: bv32)
    requires Spliced(conns, d, cookie, isn)
    ensures var after := JudgeToInside(conns, hash, now, id, h).conns; d in after ==> Spliced(after, d, cookie, isn)
  {
    hide Has, Check, Live, Minus, Plus;
  }

  lemma {:induction false} SplicedToOutside(conns: Table, mem: seq<Header>, h: Header, d: Data, cookie: bv32, isn: bv32)
    requires HeldInRange(conns, |mem|) && Spliced(conns, d, cookie, isn)
    ensures var after := JudgeToOutside(conns, mem, h).conns; d in after ==> Spliced(after, d, cookie, isn)
  {
    hide Has, Live, Minus, Plus;
  }

  /** The packets from outside whose acknowledgment number is translated. */
  predicate Inwards(info: Info, h: Header) {
    Plain(h) && if Has(h, FIN) then info.finSeenToInside ==> info.finSeenToOutside else Has(h, ACK)
  }

  /** The packets from inside whose sequence number is translated. */
  predicate Outwards(info: Info, h: Header) {
    || (Has(h, RST) && !Has(h, SYN))
    || (Plain(h) && if Has(h, FIN) then info.finSeenToOutside ==> info.finSeenToInside else Has(h, ACK))
  }

  /** What becomes of any packet from outside, by its flags and its entry. */
  lemma {:induction false} InsideExactly(conns: Table, hash: Hash, now: bv8, id: nat, h: Header)
    ensures var d := KeyToInside(h);
      JudgeToInside(conns, hash, now, id, h).verdict ==
        if Has(h, SYN) && !Has(h, ACK) then Reply(CookieReply(hash, now, h))
        else if d !in conns && Plain(h) && Has(h, FIN) then Drop
        else if d !in conns && PlainAck(h) then
          (if Check(hash, now, Minus(h.ackNum, 1), d) then Admit(AdmittedSyn(h)) else Reset(CookieRst(h)))
        else if d in conns && PlainAck(h) && conns[d].held != []
                && !Closes(conns[d], conns[d].ackToInsideExpected, h) then Queue
        else if d in conns && Inwards(conns[d], h) then Rewrite(WithAck(h, Minus(h.ackNum, conns[d].offset)))
        else Keep
  {
    SynAckBits(h);
    hide Has, Check, Live, Minus, Plus, CookieReply, KeyToInside, CookieRst, AdmittedSyn, WithAck;
  }

  /** What becomes of any packet from inside. */
  lemma {:induction false} OutsideExactly(conns: Table, mem: seq<Header>, h: Header)
    requires HeldInRange(conns, |mem|)
    ensures var d := KeyToOutside(h); var v := JudgeToOutside(conns, mem, h).verdict;
      if d in conns && Has(h, SYNACK) && conns[d].held != [] then
        if Null in conns[d].held then v == Crash
        else v.Release? && v.held == conns[d].held && v.isn == h.seqNum
             && v.offset == Minus(Minus(mem[conns[d].held[0].id].ackNum, h.seqNum), 1)
      else if d !in conns && (Has(h, SYNACK) || (!Has(h, SYN) && (Has(h, RST) || Has(h, FIN)))) then v == Drop
      else if d in conns && Outwards(conns[d], h) then v == Rewrite(WithSeq(h, Plus(h.seqNum, conns[d].offset)))
      else v == Keep
  {
    SynAckBits(h);
    hide Has, Live, Minus, Plus, KeyToOutside, WithSeq;
  }

  lemma {:induction false} SplicedInward(
    conns: Table, hash: Hash, now: bv8, id: nat, h: Header, cookie: bv32, isn: bv32, k: bv32)
    requires Spliced(conns, KeyToInside(h), cookie, isn) && h.ackNum == Plus(cookie, k)
    ensures JudgeToInside(conns, hash, now, id, h).verdict ==
      if Inwards(conns[KeyToInside(h)], h) then Rewrite(WithAck(h, Plus(isn, k)))
      else if Has(h, SYN) && !Has(h, ACK) then Reply(CookieReply(hash, now, h)) else Keep
  {
    InsideExactly(conns, hash, now, id, h);
    Inward(cookie, isn, k);
    hide JudgeToInside, Has, Check, Minus, Plus, CookieReply, KeyToInside, CookieRst, AdmittedSyn, WithAck;
  }

  lemma {:induction false} SplicedOutward(
    conns: Table, mem: seq<Header>, h: Header, cookie: bv32, isn: bv32, k: bv32)
    requires HeldInRange(conns, |mem|) && Spliced(conns, KeyToOutside(h), cookie, isn) && h.seqNum == Plus(isn, k)
    ensures JudgeToOutside(conns, mem, h).verdict ==
      if Outwards(conns[KeyToOutside(h)], h) then Rewrite(WithSeq(h, Plus(cookie, k))) else Keep
  {
    OutsideExactly(conns, mem, h);
    Outward(cookie, isn, k);
    hide JudgeToOutside, Has, Minus, Plus, KeyToOutside, WithSeq;
  }

  /** On a spliced connection, exactly which packets are translated: what the external host
      acknowledges as cookie + k reaches the internal host as isn + k, and what the internal
      host sends at isn + k leaves at cookie + k. All others pass with their numbers as they
      are, but for a SYN from outside, which is answered instead. */
  lemma {:induction false} SplicedExactly(
    conns: Table, mem: seq<Header>, hash: Hash, now: bv8, id: nat, h: Header, d: Data, cookie: bv32, isn: bv32, k: bv32)
    requires HeldInRange(conns, |mem|) && Spliced(conns, d, cookie, isn)
    ensures KeyToInside(h) == d && h.ackNum == Plus(cookie, k) ==>
      JudgeToInside(conns, hash, now, id, h).verdict ==
        if Inwards(conns[d], h) then Rewrite(WithAck(h, Plus(isn, k)))
        else if Has(h, SYN) && !Has(h, ACK) then Reply(CookieReply(hash, now, h)) else Keep
    ensures KeyToOutside(h) == d && h.seqNum == Plus(isn, k) ==>
      JudgeToOutside(conns, mem, h).verdict ==
        if Outwards(conns[d], h) then Rewrite(WithSeq(h, Plus(cookie, k))) else Keep
  {
    hide JudgeToInside, JudgeToOutside, Inwards, Outwards, Spliced, HeldInRange, Has, Plus, KeyToInside, KeyToOutside;
    if KeyToInside(h) == d && h.ackNum == Plus(cookie, k) { SplicedInward(conns, hash, now, id, h, cookie, isn, k); }
    if KeyToOutside(h) == d && h.seqNum == Plus(isn, k) { SplicedOutward(conns, mem, h, cookie, isn, k); }
  }

  lemma {:induction false} OffsetZero(a: bv32)
    ensures Minus(a, 0) == a && Plus(a, 0) == a
  {}

  /** While a connection waits, no FIN is translated in either direction: a rewritten one has
      the numbers it came with. */
  lemma {:induction false} WaitingFinPasses(
    conns: Table, mem: seq<Header>, hash: Hash, now: bv8, id: nat, h: Header, d: Data, cookie: bv32)
    requires HeldInRange(conns, |mem|) && Opened(conns, mem, d, cookie)
    requires Has(h, FIN) && !Has(h, SYN) && !Has(h, RST)
    ensures KeyToInside(h) == d ==>
      JudgeToInside(conns, hash, now, id, h).verdict == if Inwards(conns[d], h) then Rewrite(h) else Keep
    ensures KeyToOutside(h) == d ==>
      JudgeToOutside(conns, mem, h).verdict == if Outwards(conns[d], h) then Rewrite(h) else Keep
  {
    SynAckBits(h);
    OffsetZero(h.ackNum);
    OffsetZero(h.seqNum);
    assert conns[d].offset == 0;
    hide Has, Check, Live, Minus, Plus, Opened, KeyToInside, KeyToOutside;
  }

  /** In particular every ACK is translated that has neither SYN, RST nor FIN. */
  lemma {:induction false} SplicedTranslates(
    conns: Table, mem: seq<Header>, hash: Hash, now: bv8, id: nat, h: Header, d: Data, cookie: bv32, isn: bv32, k: bv32)
    requires HeldInRange(conns, |mem|) && Spliced(conns, d, cookie, isn)
    requires Has(h, ACK) && !Has(h, SYN) && !Has(h, RST) && !Has(h, FIN)
    ensures KeyToInside(h) == d && h.ackNum == Plus(cookie, k) ==>
      JudgeToInside(conns, hash, now, id, h).verdict == Rewrite(WithAck(h, Plus(isn, k)))
    ensures KeyToOutside(h) == d && h.seqNum == Plus(isn, k) ==>
      JudgeToOutside(conns, mem, h).verdict == Rewrite(WithSeq(h, Plus(cookie, k)))
  {
    SplicedExactly(conns, mem, hash, now, id, h, d, cookie, isn, k);
  }

  /** On a spliced connection a FIN is translated too, unless it repeats a FIN of the same direction before the
      other side has sent one: then it passes with its numbers as they are. */
  lemma {:induction false} FinTranslated(
    conns: Table, mem: seq<Header>, hash: Hash, now: bv8, id: nat, h: Header, d: Data, cookie: bv32, isn: bv32, k: bv32)
    requires HeldInRange(conns, |mem|) && Spliced(conns, d, cookie, isn)
    requires Has(h, FIN) && !Has(h, SYN) && !Has(h, RST)
    ensures KeyToInside(h) == d && h.ackNum == Plus(cookie, k) ==>
      JudgeToInside(conns, hash, now, id, h).verdict ==
        if conns[d].finSeenToInside && !conns[d].finSeenToOutside then Keep else Rewrite(WithAck(h, Plus(isn, k)))
    ensures KeyToOutside(h) == d && h.seqNum == Plus(isn, k) ==>
      JudgeToOutside(conns, mem, h).verdict ==
        if conns[d].finSeenToOutside && !conns[d].finSeenToInside then Keep else Rewrite(WithSeq(h, Plus(cookie, k)))
  {
    SplicedExactly(conns, mem, hash, now, id, h, d, cookie, isn, k);
  }
}
