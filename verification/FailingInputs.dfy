/** Inputs at which the program does not do what one would expect of it: for each
    condition that the other modules prove exact, a case in which it fails. */
module FailingInputs {
  import opened ConnectionHash
  import opened Cookie
  import opened Mbufs
  import opened Connections
  import opened Treatment
  import opened Ownership
  import opened Runs
  import opened Traces
  import C = Checksum
  import R = RandomNumberGenerator
  import T = TcpPacket

  // ----- A SYN-ACK that crashes the program -----

  /** A crash in one poll: two packets from inside, an ACK and then a SYN-ACK, of one
      connection that the table does not know. */
  lemma {:induction false} UnknownSynAckCrashes(ack: Header, synAck: Header)
    requires ack.tcp && PlainAck(ack) && synAck.tcp && Has(synAck, SYNACK)
    requires KeyToOutside(ack) == KeyToOutside(synAck)
    ensures var w := PollOutside(Start(), [ack, synAck]);
      Sane(w) && Full(w.outside[0..2]) && TreatToOutside(w, 0, 2).Crashed?
  {
    var w := PollOutside(Start(), [ack, synAck]);
    var d := KeyToOutside(ack);
    assert w.outside == [Mbuf(0), Mbuf(1)];
    SynAckBits(ack);
    hide Has, KeyToOutside;
    FirstToOutside(w, 0, 2);
    var v := StepToOutside(w, 0).w;
    assert v == w.(conns := map[][d := Entry(Null)]);
    FirstToOutside(v, 1, 2);
  }

  /** For instance these two, from port 80 of host 1 to port 1024 of host 2. */
  lemma {:induction false} CrashInput() returns (ack: Header, synAck: Header)
    ensures ack == Header(true, 0, 0, 1, 2, 80, 1024, 7, 8, ACK, 512)
    ensures synAck == Header(true, 0, 0, 1, 2, 80, 1024, 9, 10, SYNACK, 512)
    ensures var w := PollOutside(Start(), [ack, synAck]);
      Sane(w) && Full(w.outside[0..2]) && TreatToOutside(w, 0, 2).Crashed?
  {
    ack := Header(true, 0, 0, 1, 2, 80, 1024, 7, 8, ACK, 512);
    synAck := Header(true, 0, 0, 1, 2, 80, 1024, 9, 10, SYNACK, 512);
    UnknownSynAckCrashes(ack, synAck);
  }

  // ----- A rewritten packet that the receiver rejects -----

  /** A frame with one word of IP options between the IP and the TCP header. */
  function OptionFrame(f: T.Fields, options: seq<C.Byte>): (s: seq<C.Byte>)
    requires |options| == 4
    ensures |s| == 58
  {
    T.EthHeader(f) + [0x46, 0, 0, 44] + T.IpHeader(f)[4..] + options + T.TcpHeader(f)
  }

  lemma {:induction false} OptionFrameParses(f: T.Fields, options: seq<C.Byte>)
    requires |options| == 4
    ensures var s := OptionFrame(f, options);
      T.CreatePktInfo(s) == T.PktInfo(T.IPv4TCP, 38) && T.Laid(s, 14, 38)
      && T.HdrLen(s, 14) == 24 && T.TotalLen(s, 14) == 44 && s[23] == 6
  {
    var s := OptionFrame(f, options);
    assert s[12..14] == T.Be16(0x0800);
    assert s[12] == s[12..14][0] && s[13] == s[12..14][1];
    assert s[14] == 0x46 && s[16] == 0 && s[17] == 44 && s[23] == 6;
  }

  /** Whatever the fields and the options: the proxy recognises the packet, recalculates
      both checksums, and the receiver accepts the first and rejects the second. */
  lemma {:induction false} OptionsBreakTheChecksum(f: T.Fields, options: seq<C.Byte>)
    requires |options| == 4
    ensures var s := OptionFrame(f, options);
      T.CreatePktInfo(s) == T.PktInfo(T.IPv4TCP, 38) && T.Laid(s, 14, 38)
      && var r := T.Rechecksummed(s, 14, 38);
         T.HdrLen(r, 14) == 24 && T.TotalLen(r, 14) == 44
         && T.IpVerifies(r, 14) && !T.TcpVerifies(r, 14, 38)
  {
    OptionFrameParses(f, options);
    hide OptionFrame, T.Rechecksummed, T.IpVerifies, T.TcpVerifies;
    T.RecalculatedVerifies(OptionFrame(f, options), 14, 38);
  }

  /** For instance a SYN from 1:1024 to 2:80 with four options that do nothing. */
  lemma {:induction false} ChecksumInput() returns (s: seq<C.Byte>)
    ensures |s| == 58 && s[14] == 0x46 && s[38..42] == [4, 0, 0, 80] && s[51] == 2
    ensures T.CreatePktInfo(s) == T.PktInfo(T.IPv4TCP, 38) && T.Laid(s, 14, 38)
    ensures var r := T.Rechecksummed(s, 14, 38);
      T.HdrLen(r, 14) == 24 && T.TotalLen(r, 14) == 44 && !T.TcpVerifies(r, 14, 38)
  {
    var mac: T.Mac := [2, 0, 0, 0, 0, 1];
    var f := T.Fields(mac, mac, 1, 2, 1024, 80, 7, 0, 2, 512);
    s := OptionFrame(f, [1, 1, 1, 1]);
    OptionsBreakTheChecksum(f, [1, 1, 1, 1]);
    assert s[38..58] == T.TcpHeader(f);
    assert s[38..42] == s[38..58][..4] && s[51] == s[38..58][13];
  }

  // ----- A FIN that passes untranslated -----

  /** One connection: port 1024 of host 1 outside, port 80 of host 2 inside. */
  const KEY := Data(1, 2, 1024, 80)

  function FromOutside(seqNum: bv32, ackNum: bv32, flags: bv8): Header {
    Header(true, 0, 0, 1, 2, 1024, 80, seqNum, ackNum, flags, 512)
  }

  function FromInside(seqNum: bv32, ackNum: bv32, flags: bv8): Header {
    Header(true, 0, 0, 2, 1, 80, 1024, seqNum, ackNum, flags, 512)
  }

  /** The internal host starts one below the cookie. */
  function Isn(cookie: bv32): bv32 { Minus(cookie, 1) }

  function TakeAll(row: nat): nat { 32 }

  lemma {:induction false} KeyOf(seqNum: bv32, ackNum: bv32, flags: bv8)
    ensures KeyToInside(FromOutside(seqNum, ackNum, flags)) == KEY == KeyToOutside(FromInside(seqNum, ackNum, flags))
    ensures Has(FromOutside(seqNum, ackNum, flags), ACK) == Has(FromInside(seqNum, ackNum, flags), ACK)
  {}

  lemma {:induction false} FlagsOf(s: bv32, a: bv32)
    ensures PlainAck(FromOutside(s, a, ACK)) && Has(FromInside(s, a, SYNACK), SYNACK)
    ensures Plain(FromOutside(s, a, FIN | ACK)) && Has(FromOutside(s, a, FIN | ACK), FIN)
    ensures !Has(FromOutside(s, a, FIN | ACK), SYNACK) && !Has(FromOutside(s, a, ACK), SYNACK)
  {}

  lemma {:induction false} OneBelow(cookie: bv32)
    ensures Minus(cookie, Isn(cookie)) == 1
  {
    assert cookie - (cookie - 1) == 1;
    assert Minus(cookie, cookie - 1) == 1;
  }

  /** The ACK that shows the cookie is admitted, with a SYN for the internal host. */
  lemma {:induction false} AckAdmitted(hash: Hash, ack: Header, p: World)
    requires ack.tcp && PlainAck(ack) && Check(hash, 0, Minus(ack.ackNum, 1), KeyToInside(ack))
    requires p == PollInside(Start(), [ack])
    ensures Sane(p) && |p.inside| == 1 && p.inside[0].Mbuf?
    ensures var t := StepToInside(p, hash, 0, 0);
      InsideStep(p, t, hash, 0, 0) && t.outside == []
      && t.conns == map[KeyToInside(ack) := Entry(Mbuf(0))] && t.mem == [ack, AdmittedSyn(ack)]
  {
    assert p.inside == [Mbuf(0)] && p.mem == [ack] && p.conns == map[];
    SynAckBits(ack);
    hide Has, Check, Minus, Plus, KeyToInside, AdmittedSyn;
  }

  /** The SYN-ACK from inside splices the connection. */
  lemma {:induction false} SynAckSplices(p: World, d: Data, cookie: bv32, synAck: Header)
    requires synAck.tcp && Has(synAck, SYNACK) && KeyToOutside(synAck) == d
    requires p.conns == map[d := Entry(Mbuf(0))] && p.inside == [] && p.outside == [Mbuf(2)]
    requires |p.mem| == 3 && p.mem[0].ackNum == Plus(cookie, 1) && p.mem[2] == synAck
    ensures Sane(p) && StepToOutside(p, 0).Running?
    ensures var t := StepToOutside(p, 0).w;
      OutsideStep(p, t, 0) && |t.mem| == 3 && t.mem[2] == synAck && t.outside == p.outside
      && t.conns == map[d := Info(Minus(cookie, synAck.seqNum), false, false, false, false, [])]
  {
    FirstOffset(cookie, synAck.seqNum);
    ReleasedAreReal(p.conns, p.mem, synAck);
    hide Has, Minus, Plus, KeyToOutside, AdjustHeld;
    AdjustHeldFrame(p.mem, [Mbuf(0)], synAck.seqNum, Minus(cookie, synAck.seqNum), 2);
  }

  /** The first FIN is translated, and marks the entry. */
  lemma {:induction false} FirstFin(hash: Hash, p: World, d: Data, cookie: bv32, isn: bv32, fin: Header)
    requires fin.tcp && Plain(fin) && Has(fin, FIN) && KeyToInside(fin) == d && fin.ackNum == Plus(cookie, 1)
    requires p.conns == map[d := Info(Minus(cookie, isn), false, false, false, false, [])]
    requires p.outside == [] && p.inside == [Mbuf(3), Mbuf(4)] && |p.mem| == 5 && p.mem[3] == p.mem[4] == fin
    ensures Sane(p)
    ensures var t := StepToInside(p, hash, 0, 0);
      InsideStep(p, t, hash, 0, 0) && t.inside == p.inside && t.outside == []
      && t.conns == map[d := Info(Minus(cookie, isn), true, false, false, false, [])]
      && t.mem == p.mem[3 := WithAck(fin, Plus(isn, 1))]
  {
    Inward(cookie, isn, 1);
    SynAckBits(fin);
    hide Has, Minus, Plus, KeyToInside, Check;
  }

  /** The second passes as it is: it still acknowledges the cookie, not the isn. */
  lemma {:induction false} SecondFin(hash: Hash, p: World, d: Data, offset: bv32, fin: Header)
    requires fin.tcp && Plain(fin) && Has(fin, FIN) && KeyToInside(fin) == d
    requires p.conns == map[d := Info(offset, true, false, false, false, [])]
    requires p.outside == [] && p.inside == [Mbuf(3), Mbuf(4)] && |p.mem| == 5 && p.mem[4] == fin
    ensures Sane(p) && InsideStep(p, p, hash, 1, 0)
  {
    SynAckBits(fin);
    hide Has, Minus, Plus, KeyToInside, Check;
  }

  lemma {:induction false} Extends(ws: seq<World>, v: World, hash: Hash)
    requires IsRun(ws, hash) && Next(Last(ws), v, hash)
    ensures IsRun(ws + [v], hash)
  {
    OneStep(Last(ws), v, hash);
    GluedRuns(ws, [Last(ws), v], hash);
    assert Glued(ws, [Last(ws), v]) == ws + [v];
  }

  /** The cookie of tick 0 comes back: polled, admitted, and the SYN sent inside. */
  lemma {:induction false} AdmittedByHand(hash: Hash) returns (ws: seq<World>, cookie: bv32)
    ensures |ws| > 0 && IsRun(ws, hash) && ws[0] == Start()
    ensures var w := Last(ws);
      && w.inside == [] && w.outside == [] && |w.mem| == 2 && w.mem[0].ackNum == Plus(cookie, 1)
      && w.conns == map[KEY := Entry(Mbuf(0))]
  {
    cookie := Issue(hash, 0, KEY);
    var ack := FromOutside(101, Plus(cookie, 1), ACK);
    KeyOf(101, Plus(cookie, 1), ACK);
    FlagsOf(101, Plus(cookie, 1));
    PlusOneMinusOne(cookie);
    AcceptedValues(hash, 0, cookie, KEY);
    hide Issue, Check, Has, PlainAck, Plain, Plus, Minus;
    var w1 := PollInside(Start(), [ack]);
    PollIsNext(Start(), [ack], hash);
    AckAdmitted(hash, ack, w1);
    var w2 := StepToInside(w1, hash, 0, 0);
    assert Next(w1, w2, hash);
    SendIsNext(w2, TakeAll, hash);
    hide IsRun, Next, StepToInside;
    OneStep(Start(), w1, hash);
    Extends([Start(), w1], w2, hash);
    ws := [Start(), w1] + [w2] + [SendInside(w2, TakeAll)];
    Extends([Start(), w1] + [w2], SendInside(w2, TakeAll), hash);
  }

  /** Then the internal host answers, one below the cookie. The connection is spliced with
      offset 1, and the SYN-ACK waits to be sent with the number it came with. */
  lemma {:induction false} SynAckPasses(hash: Hash) returns (ws: seq<World>, cookie: bv32)
    ensures |ws| > 0 && IsRun(ws, hash) && ws[0] == Start()
    ensures var w := Last(ws); var offset := Minus(cookie, Isn(cookie));
      && w.outside == [Mbuf(2)] && |w.mem| == 3 && w.mem[2] == FromInside(Isn(cookie), 102, SYNACK)
      && w.conns == map[KEY := Info(offset, false, false, false, false, [])] && offset == 1
  {
    ws, cookie := AdmittedByHand(hash);
    var w3 := Last(ws);
    var synAck := FromInside(Isn(cookie), 102, SYNACK);
    KeyOf(Isn(cookie), 102, SYNACK);
    FlagsOf(Isn(cookie), 102);
    OneBelow(cookie);
    hide Has, Plus, Minus, Isn;
    var w4 := PollOutside(w3, [synAck]);
    PollIsNext(w3, [synAck], hash);
    assert w4.outside == [Mbuf(2)] && w4.mem == w3.mem + [synAck];
    SynAckSplices(w4, KEY, cookie, synAck);
    var w5 := StepToOutside(w4, 0).w;
    assert Next(w4, w5, hash);
    hide IsRun, Next, StepToOutside, PollOutside;
    Extends(ws, w4, hash);
    Extends(ws + [w4], w5, hash);
    ws := ws + [w4] + [w5];
  }

  /** And is sent: a reachable spliced state with offset 1 and nothing waiting. */
  lemma {:induction false} SplicedByHand(hash: Hash) returns (ws: seq<World>, cookie: bv32)
    ensures |ws| > 0 && IsRun(ws, hash) && ws[0] == Start()
    ensures var w := Last(ws);
      && w.inside == [] && w.outside == [] && |w.mem| == 3
      && w.conns == map[KEY := Info(Minus(cookie, Isn(cookie)), false, false, false, false, [])]
  {
    hide IsRun, Minus, Isn, FromInside;
    ws, cookie := SynAckPasses(hash);
    SendsAreRun(Last(ws), TakeAll, TakeAll, hash);
    GluedRuns(ws, Sends(Last(ws), TakeAll, TakeAll), hash);
    ws := Glued(ws, Sends(Last(ws), TakeAll, TakeAll));
  }

  /** Both FINs polled and treated, from that state on. */
  lemma {:induction false} TwoFins(hash: Hash, w: World, cookie: bv32, fin: Header)
      returns (polled: World, first: World)
    requires w.inside == [] && w.outside == [] && |w.mem| == 3
    requires w.conns == map[KEY := Info(Minus(cookie, Isn(cookie)), false, false, false, false, [])]
    requires fin == FromOutside(102, Plus(cookie, 1), FIN | ACK)
    ensures Next(w, polled, hash) && Next(polled, first, hash) && Next(first, first, hash)
    ensures Spliced(first.conns, KEY, cookie, Isn(cookie)) && InsideStep(first, first, hash, 1, 0)
    ensures first.inside == [Mbuf(3), Mbuf(4)] && |first.mem| == 5
    ensures first.mem[3] == WithAck(fin, Plus(Isn(cookie), 1)) && first.mem[4] == fin
  {
    KeyOf(102, Plus(cookie, 1), FIN | ACK);
    FlagsOf(102, Plus(cookie, 1));
    hide Has, Plain, Plus, Minus, Isn;
    polled := PollInside(w, [fin, fin]);
    PollIsNext(w, [fin, fin], hash);
    assert polled.inside == [Mbuf(3), Mbuf(4)] && polled.mem == w.mem + [fin, fin];
    hide FromOutside, PollInside;
    FirstFin(hash, polled, KEY, cookie, Isn(cookie), fin);
    first := StepToInside(polled, hash, 0, 0);
    SecondFin(hash, first, KEY, Minus(cookie, Isn(cookie)), fin);
    hide StepToInside, InsideStep;
    assert Next(polled, first, hash) && Next(first, first, hash);
  }

  /** And then the external host sends the same FIN twice. The first is translated by the
      offset; the second, in a spliced state whose offset is 1, leaves as it came. */
  lemma {:induction false} RepeatedFinPasses(hash: Hash)
      returns (ws: seq<World>, cookie: bv32, first: World, second: World)
    ensures IsRun(ws, hash) && ws[0] == Start() && |ws| >= 2 && ws[|ws| - 2] == first && Last(ws) == second
    ensures Spliced(first.conns, KEY, cookie, Isn(cookie)) && first.conns[KEY].offset == 1
    ensures InsideStep(first, second, hash, 1, 0) && second == first
    ensures first.inside == [Mbuf(3), Mbuf(4)] && |first.mem| == 5
    ensures var fin := FromOutside(102, Plus(cookie, 1), FIN | ACK);
      first.mem[3] == WithAck(fin, Plus(Isn(cookie), 1)) && second.mem[4] == fin
  {
    hide IsRun, Next, InsideStep, FromOutside, Plus, Minus, Isn;
    ws, cookie := SplicedByHand(hash);
    OneBelow(cookie);
    var w7 := Last(ws);
    var w8: World;
    w8, first := TwoFins(hash, w7, cookie, FromOutside(102, Plus(cookie, 1), FIN | ACK));
    second := first;
    Extends(ws, w8, hash);
    Extends(ws + [w8], first, hash);
    Extends(ws + [w8] + [first], second, hash);
    ws := ws + [w8] + [first] + [second];
  }

  // ----- A packet that is held and never sent -----

  /** After the first of two plain ACKs of one connection, which shows its cookie. */
  ghost predicate OneHeld(w: World, d: Data, next: Header) {
    && w.conns == map[d := Entry(Mbuf(0))]
    && w.inside == [Null, Mbuf(1), Mbuf(2)] && w.outside == [] && |w.mem| == 3 && w.mem[1] == next
  }

  lemma {:induction false} FirstIsHeld(hash: Hash, now: bv8, ack: Header, next: Header, p: World)
    requires ack.tcp && PlainAck(ack) && Check(hash, now, Minus(ack.ackNum, 1), KeyToInside(ack))
    requires p == PollInside(Start(), [ack, next])
    ensures Sane(p) && p.inside == [Mbuf(0), Mbuf(1)]
    ensures var u := StepToInside(p, hash, now, 0); InsideStep(p, u, hash, 0, now) && OneHeld(u, KeyToInside(ack), next)
  {
    assert p.inside == [Mbuf(0), Mbuf(1)] && p.mem == [ack, next] && p.conns == map[];
    SynAckBits(ack);
    hide Has, Check, Minus, KeyToInside, AdmittedSyn;
  }

  lemma {:induction false} SecondIsHeld(hash: Hash, now: bv8, next: Header, u: World)
    requires next.tcp && PlainAck(next) && OneHeld(u, KeyToInside(next), next)
    ensures Sane(u)
    ensures var v := StepToInside(u, hash, now, 1);
      InsideStep(u, v, hash, 1, now)
      && v.conns == map[KeyToInside(next) := Info(0, false, false, false, false, [Mbuf(0), Mbuf(1)])]
  {
    var d := KeyToInside(next);
    SynAckBits(next);
    hide Has, Check, Minus, KeyToInside;
    assert u.conns[d].held + [Mbuf(1)] == [Mbuf(0), Mbuf(1)];
    assert map[d := Entry(Mbuf(0))][d := Info(0, false, false, false, false, [Mbuf(0), Mbuf(1)])]
      == map[d := Info(0, false, false, false, false, [Mbuf(0), Mbuf(1)])];
  }

  /** Two plain ACKs of one connection in one poll, the first with its cookie: both are held. */
  lemma {:induction false} TwoAcksHeld(hash: Hash, clock: nat -> bv8, ack: Header, next: Header, p: World)
    requires ack.tcp && PlainAck(ack) && next.tcp && PlainAck(next) && KeyToInside(ack) == KeyToInside(next)
    requires Check(hash, clock(0), Minus(ack.ackNum, 1), KeyToInside(ack))
    requires p == PollInside(Start(), [ack, next])
    ensures Sane(p) && p.inside == [Mbuf(0), Mbuf(1)]
    ensures var u := StepToInside(p, hash, clock(0), 0); var v := TreatToInside(p, hash, clock, 0, 2);
      InsideStep(p, u, hash, 0, clock(0)) && InsideStep(u, v, hash, 1, clock(1))
      && v.conns == map[KeyToInside(ack) := Info(0, false, false, false, false, [Mbuf(0), Mbuf(1)])]
  {
    FirstIsHeld(hash, clock(0), ack, next, p);
    var u := StepToInside(p, hash, clock(0), 0);
    SecondIsHeld(hash, clock(1), next, u);
    hide StepToInside, PlainAck, Check, Minus, KeyToInside, PollInside;
    FirstToInside(p, hash, clock, 0, 2);
    FirstToInside(u, hash, clock, 1, 2);
    NoneToInside(StepToInside(u, hash, clock(1), 1), hash, clock, 2);
  }

  /** The first goes on once the internal host answers; the second never does, in any run. */
  lemma {:induction false} SecondAckNeverSent(hash: Hash, clock: nat -> bv8, ack: Header, next: Header)
    requires ack.tcp && PlainAck(ack) && next.tcp && PlainAck(next) && KeyToInside(ack) == KeyToInside(next)
    requires Check(hash, clock(0), Minus(ack.ackNum, 1), KeyToInside(ack))
    ensures var p := PollInside(Start(), [ack, next]);
      && Sane(p) && |p.inside| == 2 && Full(p.inside[0..2])
      && var v := TreatToInside(p, hash, clock, 0, 2);
         v.conns == map[KeyToInside(ack) := Info(0, false, false, false, false, [Mbuf(0), Mbuf(1)])]
         && forall ws: seq<World> :: IsRun(ws, hash) && ws[0] == v ==>
              !EverGoesOn(ws, 1) && (EverGoesOn(ws, 0) <==> exists j :: AnsweredAt(ws, j, KeyToInside(ack)))
  {
    var p := PollInside(Start(), [ack, next]);
    TwoAcksHeld(hash, clock, ack, next, p);
    var u := StepToInside(p, hash, clock(0), 0);
    var v := TreatToInside(p, hash, clock, 0, 2);
    hide InsideStep, StepToInside, TreatToInside, Check, PlainAck, IsRun, Reachable;
    StartReachable();
    PollIsNext(Start(), [ack, next], hash);
    assert Next(p, u, hash) && Next(u, v, hash);
    hide Next;
    NextReachable(Start(), p, hash);
    NextReachable(p, u, hash);
    NextReachable(u, v, hash);
    forall ws: seq<World> | IsRun(ws, hash) && ws[0] == v
      ensures !EverGoesOn(ws, 1) && (EverGoesOn(ws, 0) <==> exists j :: AnsweredAt(ws, j, KeyToInside(ack)))
    {
      HeldGoesOn(ws, hash, KeyToInside(ack), 0, 0);
      HeldGoesOn(ws, hash, KeyToInside(ack), 1, 1);
    }
  }

  /** For instance the ACK that shows the cookie of tick 0, sent twice. */
  lemma {:induction false} HeldInput(hash: Hash) returns (ack: Header)
    ensures ack == FromOutside(101, Plus(Issue(hash, 0, KEY), 1), ACK)
    ensures var p := PollInside(Start(), [ack, ack]);
      && Sane(p) && |p.inside| == 2 && Full(p.inside[0..2])
      && var v := TreatToInside(p, hash, n => 0, 0, 2);
         forall ws: seq<World> :: IsRun(ws, hash) && ws[0] == v ==> !EverGoesOn(ws, 1)
  {
    var cookie := Issue(hash, 0, KEY);
    ack := FromOutside(101, Plus(cookie, 1), ACK);
    KeyOf(101, Plus(cookie, 1), ACK);
    FlagsOf(101, Plus(cookie, 1));
    PlusOneMinusOne(cookie);
    AcceptedValues(hash, 0, cookie, KEY);
    hide Issue, Check, PlainAck, Plus, Minus, IsRun, EverGoesOn;
    SecondAckNeverSent(hash, n => 0, ack, ack);
  }

  // ----- An interval with its limits the wrong way round -----

  lemma {:induction false} IntervalInput()
    ensures R.InInterval(1, 1024, 1022) == 1025 && !(1022 <= 1025 < 1024)
  {}
}
