/** The treatment of polled packets: what each one does to the connection table, the two
    containers and the buffers, as a function of the whole state and as methods that
    work on the real objects. */
module Treatment {
  import opened ConnectionHash
  import opened Cookie
  import opened Mbufs
  import opened Connections
  import PacketContainer

  /** Everything the treatment can touch; the last four say where buffers went that
      wait nowhere any more. */
  datatype World = World(
    conns: Table, mem: seq<Header>, inside: seq<Pointer>, outside: seq<Pointer>,
    sent: seq<nat>, freed: seq<nat>, lost: seq<nat>, abandoned: seq<nat>)

  /** Every pointer refers to an existing buffer. */
  ghost predicate Sane(w: World) {
    InRange(w.inside, |w.mem|) && InRange(w.outside, |w.mem|) && HeldInRange(w.conns, |w.mem|)
  }

  datatype Outcome = Running(w: World) | Crashed

  // ----- Carrying out a verdict -----

  function ApplyToInside(w: World, i: nat, t: Treated): World
    requires i < |w.inside| && w.inside[i].Mbuf? && w.inside[i].id < |w.mem|
  {
    var id := w.inside[i].id;
    var v := w.(conns := t.conns, lost := w.lost + t.lost);
    var added := Mbuf(|w.mem|);
    match t.verdict
    case Rewrite(h) => v.(mem := w.mem[id := h])
    case Drop => v.(inside := w.inside[i := Null], freed := w.freed + [id])
    case Reply(h) =>
      v.(mem := w.mem + [h], outside := w.outside + [added], inside := w.inside[i := Null], freed := w.freed + [id])
    case Admit(h) => v.(mem := w.mem + [h], inside := (w.inside + [added])[i := Null])
    case Reset(h) =>
      v.(mem := w.mem + [h], inside := (w.inside + [added])[i := Null], freed := w.freed + [id])
    case Queue => v.(inside := w.inside[i := Null])
    case _ => v
  }

  /** The packets behind the first are adjusted by the new offset and then forgotten. */
  function AdjustRest(mem: seq<Header>, rest: seq<Pointer>, offset: bv32): (r: seq<Header>)
    requires Full(rest) && InRange(rest, |mem|)
    ensures |r| == |mem|
    decreases |rest|
  {
    if rest == [] then mem
    else
      var h := mem[rest[0].id];
      AdjustRest(mem[rest[0].id := WithAck(h, Minus(h.ackNum, offset))], rest[1..], offset)
  }

  /** The first held packet acknowledges the internal host's sequence number. */
  function AdjustHeld(mem: seq<Header>, held: seq<Pointer>, isn: bv32, offset: bv32): (r: seq<Header>)
    requires |held| > 0 && Full(held) && InRange(held, |mem|)
    ensures |r| == |mem|
  {
    AdjustRest(mem[held[0].id := WithAck(mem[held[0].id], Plus(isn, 1))], held[1..], offset)
  }

  function ApplyToOutside(w: World, i: nat, t: Treated): Outcome
    requires i < |w.outside| && w.outside[i].Mbuf? && w.outside[i].id < |w.mem|
    requires t.verdict.Release? ==> |t.verdict.held| > 0 && Full(t.verdict.held) && InRange(t.verdict.held, |w.mem|)
  {
    var id := w.outside[i].id;
    var v := w.(conns := t.conns, lost := w.lost + t.lost);
    match t.verdict
    case Rewrite(h) => Running(v.(mem := w.mem[id := h]))
    case Drop => Running(v.(outside := w.outside[i := Null], freed := w.freed + [id]))
    case Release(held, isn, offset) =>
      Running(v.(mem := AdjustHeld(w.mem, held, isn, offset), inside := w.inside + [held[0]]))
    case Crash => Crashed
    case _ => Running(v)
  }

  // ----- One packet -----

  function StepToInside(w: World, hash: Hash, now: bv8, i: nat): World
    requires Sane(w) && i < |w.inside| && w.inside[i].Mbuf?
  {
    var id := w.inside[i].id;
    if w.mem[id].tcp then ApplyToInside(w, i, JudgeToInside(w.conns, hash, now, id, w.mem[id])) else w
  }

  lemma {:induction false} ReleasedAreReal(conns: Table, mem: seq<Header>, h: Header)
    requires HeldInRange(conns, |mem|)
    ensures var v := JudgeToOutside(conns, mem, h).verdict;
      v.Release? ==> |v.held| > 0 && Full(v.held) && InRange(v.held, |mem|)
  {
    hide Has, Live, Minus, Plus;
  }

  function StepToOutside(w: World, i: nat): Outcome
    requires Sane(w) && i < |w.outside| && w.outside[i].Mbuf?
  {
    var h := w.mem[w.outside[i].id];
    ReleasedAreReal(w.conns, w.mem, h);
    if h.tcp then ApplyToOutside(w, i, JudgeToOutside(w.conns, w.mem, h)) else Running(w)
  }

  // ----- What a step leaves alone -----

  /** Buffers and slots are only added; apart from the treated slot, all stay. */
  ghost predicate Grows(w: World, v: World) {
    |w.mem| <= |v.mem| && |w.inside| <= |v.inside| && |w.outside| <= |v.outside|
  }

  ghost predicate SameBut(s: seq<Pointer>, t: seq<Pointer>, i: int) {
    |s| <= |t| && forall k :: 0 <= k < |s| && k != i ==> t[k] == s[k]
  }

  lemma {:induction false} JudgedInRange(conns: Table, hash: Hash, now: bv8, id: nat, h: Header, n: nat)
    requires HeldInRange(conns, n) && id < n
    ensures HeldInRange(JudgeToInside(conns, hash, now, id, h).conns, n)
  {
    hide Has, Check, Live, Minus, Plus;
  }

  lemma {:induction false} JudgedOutInRange(conns: Table, mem: seq<Header>, h: Header)
    requires HeldInRange(conns, |mem|)
    ensures HeldInRange(JudgeToOutside(conns, mem, h).conns, |mem|)
  {
    hide Has, Live, Minus, Plus;
  }

  lemma {:induction false} NothingChanged(w: World, i: nat)
    ensures Grows(w, w) && SameBut(w.inside, w.inside, i) && SameBut(w.outside, w.outside, -1)
  {}

  lemma {:induction false} ApplyToInsideKeeps(w: World, i: nat, t: Treated)
    requires Sane(w) && i < |w.inside| && w.inside[i].Mbuf? && HeldInRange(t.conns, |w.mem|)
    ensures var v := ApplyToInside(w, i, t);
      Sane(v) && Grows(w, v) && SameBut(w.inside, v.inside, i) && SameBut(w.outside, v.outside, -1)
      && |v.inside| <= |w.inside| + 1 && |v.outside| <= |w.outside| + 1
  {}

  lemma {:induction false} StepToInsideKeeps(w: World, hash: Hash, now: bv8, i: nat)
    requires Sane(w) && i < |w.inside| && w.inside[i].Mbuf?
    ensures var v := StepToInside(w, hash, now, i);
      Sane(v) && Grows(w, v) && SameBut(w.inside, v.inside, i) && SameBut(w.outside, v.outside, -1)
      && |v.inside| <= |w.inside| + 1 && |v.outside| <= |w.outside| + 1
  {
    var id := w.inside[i].id;
    hide JudgeToInside, ApplyToInside, SameBut, Grows;
    if w.mem[id].tcp {
      JudgedInRange(w.conns, hash, now, id, w.mem[id], |w.mem|);
      ApplyToInsideKeeps(w, i, JudgeToInside(w.conns, hash, now, id, w.mem[id]));
    } else {
      NothingChanged(w, i);
    }
  }

  lemma {:induction false} StepToOutsideKeeps(w: World, i: nat)
    requires Sane(w) && i < |w.outside| && w.outside[i].Mbuf? && StepToOutside(w, i).Running?
    ensures var v := StepToOutside(w, i).w;
      Sane(v) && Grows(w, v) && SameBut(w.inside, v.inside, -1) && SameBut(w.outside, v.outside, i)
      && |v.inside| <= |w.inside| + 1 && |v.outside| == |w.outside|
  {
    var h := w.mem[w.outside[i].id];
    JudgedOutInRange(w.conns, w.mem, h);
    ReleasedAreReal(w.conns, w.mem, h);
    hide JudgeToOutside;
  }

  // ----- All polled packets -----

  /** The packets in slots i to n, one after another; the clock may tick in between. */
  function TreatToInside(w: World, hash: Hash, clock: nat -> bv8, i: nat, n: nat): World
    requires Sane(w) && i <= n <= |w.inside| && Full(w.inside[i..n])
    decreases n - i
  {
    if i == n then w else
      assert w.inside[i] == w.inside[i..n][0];
      StepToInsideKeeps(w, hash, clock(i), i);
      var v := StepToInside(w, hash, clock(i), i);
      assert v.inside[i + 1..n] == w.inside[i..n][1..];
      TreatToInside(v, hash, clock, i + 1, n)
  }

  function TreatToOutside(w: World, i: nat, n: nat): Outcome
    requires Sane(w) && i <= n <= |w.outside| && Full(w.outside[i..n])
    decreases n - i
  {
    if i == n then Running(w) else
      assert w.outside[i] == w.outside[i..n][0];
      var o := StepToOutside(w, i);
      if o.Crashed? then o else
        StepToOutsideKeeps(w, i);
        assert o.w.outside[i + 1..n] == w.outside[i..n][1..];
        TreatToOutside(o.w, i + 1, n)
  }

  // ----- The treatment object -----

  /** Keep touches neither slots nor buffers. */
  lemma {:induction false} KeepToInside(w: World, i: nat)
    requires i < |w.inside| && w.inside[i].Mbuf? && w.inside[i].id < |w.mem|
    ensures forall t: Treated :: t.verdict == Keep ==>
      ApplyToInside(w, i, t) == w.(conns := t.conns, lost := w.lost + t.lost)
  {}

  /** What a SYN-ACK from inside does when packets are held. */
  ghost predicate Released(w: World, v: World, d: Data, h: Header)
    requires d in w.conns && w.conns[d].held != [] && Full(w.conns[d].held) && InRange(w.conns[d].held, |w.mem|)
  {
    var held := w.conns[d].held;
    var offset := Minus(Minus(w.mem[held[0].id].ackNum, h.seqNum), 1);
    v == w.(conns := w.conns[d := w.conns[d].(offset := offset, held := [])],
            mem := AdjustHeld(w.mem, held, h.seqNum, offset),
            inside := w.inside + [held[0]], lost := w.lost + Live(held[1..]))
  }

  lemma {:induction false} FirstToInside(w: World, hash: Hash, clock: nat -> bv8, i: nat, n: nat)
    requires Sane(w) && i < n <= |w.inside| && Full(w.inside[i..n])
    ensures w.inside[i].Mbuf?
    ensures var v := StepToInside(w, hash, clock(i), i);
      Sane(v) && Grows(w, v) && Full(v.inside[i + 1..n])
      && |v.inside| <= |w.inside| + 1 && |v.outside| <= |w.outside| + 1
      && TreatToInside(w, hash, clock, i, n) == TreatToInside(v, hash, clock, i + 1, n)
  {
    assert w.inside[i] == w.inside[i..n][0];
    StepToInsideKeeps(w, hash, clock(i), i);
    hide StepToInside, Sane;
    assert StepToInside(w, hash, clock(i), i).inside[i + 1..n] == w.inside[i..n][1..];
  }

  lemma {:induction false} NoneToInside(w: World, hash: Hash, clock: nat -> bv8, n: nat)
    requires Sane(w) && n <= |w.inside|
    ensures Full(w.inside[n..n]) && TreatToInside(w, hash, clock, n, n) == w
  {}

  lemma {:induction false} ReleasedParts(w: World, v: World, d: Data, h: Header)
    requires d in w.conns && w.conns[d].held != [] && Full(w.conns[d].held) && InRange(w.conns[d].held, |w.mem|)
    requires v.outside == w.outside && v.sent == w.sent && v.freed == w.freed && v.abandoned == w.abandoned
    requires var held := w.conns[d].held;
      var offset := Minus(Minus(w.mem[held[0].id].ackNum, h.seqNum), 1);
      v.inside == w.inside + [held[0]] && v.lost == w.lost + Live(held[1..])
      && v.mem == AdjustRest(w.mem[held[0].id := WithAck(w.mem[held[0].id], Plus(h.seqNum, 1))], held[1..], offset)
      && v.conns == w.conns[d := w.conns[d].(offset := offset)][d := w.conns[d].(offset := offset, held := [])]
    ensures Released(w, v, d, h)
  {
    hide Minus, Plus, Live, AdjustRest;
  }

  lemma {:induction false} NullOrFull(s: seq<Pointer>)
    ensures Null in s <==> !Full(s)
  {
    if !Full(s) {
      var k :| 0 <= k < |s| && !s[k].Mbuf?;
      assert s[k] == Null;
    }
  }

  ghost predicate ReleasedReal(t: Treated, n: nat) {
    t.verdict.Release? ==> |t.verdict.held| > 0 && Full(t.verdict.held) && InRange(t.verdict.held, n)
  }

  lemma {:induction false} FirstToOutside(w: World, i: nat, n: nat)
    requires Sane(w) && i < n <= |w.outside| && Full(w.outside[i..n])
    ensures w.outside[i].Mbuf?
    ensures match StepToOutside(w, i)
      case Crashed => TreatToOutside(w, i, n) == Crashed
      case Running(v) =>
        Sane(v) && n <= |v.outside| && Full(v.outside[i + 1..n]) && |v.inside| <= |w.inside| + 1
        && TreatToOutside(w, i, n) == TreatToOutside(v, i + 1, n)
  {
    assert w.outside[i] == w.outside[i..n][0];
    if StepToOutside(w, i).Running? {
      StepToOutsideKeeps(w, i);
      hide StepToOutside, Sane;
      assert StepToOutside(w, i).w.outside[i + 1..n] == w.outside[i..n][1..];
    }
  }

  lemma {:induction false} NoneToOutside(w: World, n: nat)
    requires Sane(w) && n <= |w.outside|
    ensures Full(w.outside[n..n]) && TreatToOutside(w, n, n) == Running(w)
  {}

  class Treatment {
    const memory: Memory
    const inside: PacketContainer.Container
    const outside: PacketContainer.Container
    const hash: Hash
    var conns: Table
    ghost var lost: seq<nat>

    constructor (memory: Memory, inside: PacketContainer.Container, outside: PacketContainer.Container, hash: Hash)
      ensures this.memory == memory && this.inside == inside && this.outside == outside && this.hash == hash
      ensures conns == map[] && lost == []
    {
      this.memory, this.inside, this.outside, this.hash := memory, inside, outside, hash;
      conns, lost := map[], [];
    }

    ghost function View(): World
      reads this, memory, inside, outside
    {
      World(conns, memory.headers, inside.slots, outside.slots, memory.sent, memory.freed, lost, memory.abandoned)
    }

    /** The two containers share the buffers and nothing else. */
    ghost predicate Apart() {
      && inside.memory == memory && outside.memory == memory && inside != outside
      && {inside.mbufs, inside.infos} !! {outside.mbufs, outside.infos} && inside.rowLen != outside.rowLen
    }

    ghost predicate Linked()
      reads inside, outside, inside.mbufs, inside.infos, inside.rowLen
      reads outside.mbufs, outside.infos, outside.rowLen
    {
      Apart() && inside.Valid() && outside.Valid()
    }

    ghost function Footprint(): set<object> {
      {this, memory, inside, outside, inside.mbufs, inside.infos, inside.rowLen,
       outside.mbufs, outside.infos, outside.rowLen}
    }

    // ----- Towards the inside -----

    /** SYN: answer with a cookie, remember nothing. */
    method OnSynToInside(i: nat, now: bv8, h: Header)
      requires Linked() && i < |inside.slots| && inside.slots[i].Mbuf? && inside.slots[i].id < |memory.headers|
      requires |outside.slots| < 65535
      modifies Footprint()
      ensures Linked() && inside.nbPolled == old(inside.nbPolled) && outside.nbPolled == old(outside.nbPolled)
      ensures View() == ApplyToInside(old(View()), i, Unchanged(old(conns), Reply(CookieReply(hash, now, h))))
    {
      hide PacketContainer.Container.Valid;
      var cookie := hash(now, KeyToInside(h));
      var seqNum := Truncated(cookie, now);
      var reply := outside.GetEmptyPacket(h);
      memory.Write(reply, Header(true, h.dstMac, h.srcMac, h.dstIp, h.srcIp, h.dstPort, h.srcPort,
                                 seqNum, Plus(h.seqNum, 1), SYNACK, h.window));
      var _ := inside.DropPacket(i);
      assert View().mem == old(View()).mem + [CookieReply(hash, now, h)];
    }

    /** RST: the entry goes, with whatever it held; the packet goes on. */
    method EraseEntry(d: Data)
      modifies this
      ensures conns == old(conns) - {d}
      ensures lost == old(lost) + if d in old(conns) then Live(old(conns)[d].held) else []
    {
      lost := lost + if d in conns then Live(conns[d].held) else [];
      conns := conns - {d};
    }

    method OnFinToInside(i: nat, p: Pointer, d: Data, h: Header)
      requires Linked() && i < |inside.slots| && inside.slots[i] == p && p.Mbuf? && p.id < |memory.headers|
      modifies Footprint()
      ensures Linked() && inside.nbPolled == old(inside.nbPolled) && outside.nbPolled == old(outside.nbPolled)
      ensures View() == ApplyToInside(old(View()), i, FinToInside(old(conns), d, h))
    {
      hide PacketContainer.Container.Valid, Minus;
      if d !in conns {
        var _ := inside.DropPacket(i);
      } else if conns[d].finSeenToOutside {
        conns := conns[d := conns[d].(finSeenToInside := true, ackToOutsideExpected := true)];
        memory.Write(p, WithAck(h, Minus(h.ackNum, conns[d].offset)));
      } else if !conns[d].finSeenToInside {
        conns := conns[d := conns[d].(finSeenToInside := true)];
        memory.Write(p, WithAck(h, Minus(h.ackNum, conns[d].offset)));
      }
    }

    /** A right cookie: hold the packet, make the entry, send a SYN inside. */
    method AdmitConnection(i: nat, d: Data, h: Header)
      requires Linked() && i < |inside.slots| < 65535 && inside.slots[i].Mbuf? && inside.slots[i].id < |memory.headers|
      modifies Footprint()
      ensures Linked() && inside.nbPolled == old(inside.nbPolled) && outside.nbPolled == old(outside.nbPolled)
      ensures View() == ApplyToInside(old(View()), i,
        Update(old(conns), d, Entry(old(inside.slots[i])), Admit(AdmittedSyn(h))))
    {
      hide PacketContainer.Container.Valid, Minus;
      var reply := inside.GetEmptyPacket(h);
      var taken := inside.TakePacket(i);
      conns := conns[d := Entry(taken.p)];
      memory.Write(reply, AdmittedSyn(h));
      assert View().mem == old(View()).mem + [AdmittedSyn(h)];
    }

    /** A wrong cookie: a RST, and the packet is dropped. */
    method RefuseConnection(i: nat, h: Header)
      requires Linked() && i < |inside.slots| < 65535 && inside.slots[i].Mbuf? && inside.slots[i].id < |memory.headers|
      modifies Footprint()
      ensures Linked() && inside.nbPolled == old(inside.nbPolled) && outside.nbPolled == old(outside.nbPolled)
      ensures View() == ApplyToInside(old(View()), i, Unchanged(old(conns), Reset(CookieRst(h))))
    {
      hide PacketContainer.Container.Valid;
      var rst := inside.GetEmptyPacket(h);
      memory.Write(rst, CookieRst(h));
      var _ := inside.DropPacket(i);
      assert View().mem == old(View()).mem + [CookieRst(h)];
    }

    method OnAckToInside(i: nat, p: Pointer, now: bv8, d: Data, h: Header)
      requires Linked() && i < |inside.slots| && inside.slots[i] == p && p.Mbuf? && p.id < |memory.headers|
      requires |inside.slots| < 65535
      modifies Footprint()
      ensures Linked() && inside.nbPolled == old(inside.nbPolled) && outside.nbPolled == old(outside.nbPolled)
      ensures View() == ApplyToInside(old(View()), i, AckToInside(old(conns), hash, now, d, p.id, h))
    {
      hide PacketContainer.Container.Valid, Minus, Check, Live;
      if d !in conns {
        if Check(hash, now, Minus(h.ackNum, 1), d) {
          AdmitConnection(i, d, h);
        } else {
          RefuseConnection(i, h);
        }
      } else if conns[d].finSeenToInside && conns[d].finSeenToOutside && conns[d].ackToInsideExpected {
        memory.Write(p, WithAck(h, Minus(h.ackNum, conns[d].offset)));
        EraseEntry(d);
      } else if conns[d].held != [] {
        var taken := inside.TakePacket(i);
        conns := conns[d := conns[d].(held := conns[d].held + [taken.p])];
      } else {
        memory.Write(p, WithAck(h, Minus(h.ackNum, conns[d].offset)));
      }
    }

    /** The body of the loop over packets to the inside. */
    method TreatPacketToInside(i: nat, now: bv8)
      requires Linked() && Sane(View()) && i < |inside.slots| && inside.slots[i].Mbuf?
      requires |inside.slots| < 65535 && |outside.slots| < 65535
      modifies Footprint()
      ensures Linked() && inside.nbPolled == old(inside.nbPolled) && outside.nbPolled == old(outside.nbPolled)
      ensures View() == StepToInside(old(View()), hash, now, i)
    {
      hide PacketContainer.Container.Valid, Has, Check, Minus, Plus, Live;
      hide ApplyToInside, FinToInside, AckToInside;
      var r := inside.GetPacketAtIndex(i);
      var p := r.p;
      var h := memory.headers[p.id];
      if h.tcp {
        ghost var w := View();
        KeepToInside(w, i);
        var d := KeyToInside(h);
        if Has(h, SYNACK) {
          if d !in conns {
            conns := conns[d := Entry(Null)];
          }
        } else if Has(h, SYN) {
          OnSynToInside(i, now, h);
        } else if Has(h, RST) {
          EraseEntry(d);
        } else if Has(h, FIN) {
          OnFinToInside(i, p, d, h);
        } else if Has(h, ACK) {
          OnAckToInside(i, p, now, d, h);
        }
      }
    }

    /** treat_packets_to_inside: every polled packet once, while both containers grow. */
    method TreatPacketsToInside(clock: nat -> bv8)
      requires Linked() && Sane(View()) && Full(inside.slots[..inside.nbPolled])
      requires |inside.slots| + inside.nbPolled <= 65535 && |outside.slots| + inside.nbPolled <= 65535
      modifies Footprint()
      ensures Linked() && Sane(View())
      ensures View() == TreatToInside(old(View()), hash, clock, 0, old(inside.nbPolled))
    {
      var n := inside.nbPolled;
      assert n <= |inside.slots|;
      hide PacketContainer.Container.Valid, Sane, StepToInside, TreatToInside;
      assert inside.slots[0..n] == inside.slots[..n];
      var i := 0;
      while i < inside.nbPolled
        invariant i <= n == inside.nbPolled <= |inside.slots| && Linked() && Sane(View()) && Full(inside.slots[i..n])
        invariant |inside.slots| + n - i <= 65535 && |outside.slots| + n - i <= 65535
        invariant TreatToInside(View(), hash, clock, i, n) == TreatToInside(old(View()), hash, clock, 0, n)
      {
        FirstToInside(View(), hash, clock, i, n);
        TreatPacketToInside(i, clock(i));
        i := i + 1;
      }
      NoneToInside(View(), hash, clock, n);
    }

    // ----- Towards the outside -----

    /** The held ACK goes inside with the internal host's number. */
    method ReleaseFirst(d: Data, first: Pointer, h: Header)
      requires Linked() && d in conns && |inside.slots| < 65535
      requires first.Mbuf? && first.id < |memory.headers|
      modifies this`conns, memory`headers, inside, inside.mbufs, inside.infos, inside.rowLen
      ensures Linked() && inside.nbPolled == old(inside.nbPolled)
      ensures inside.slots == old(inside.slots) + [first]
      ensures var ack := old(memory.headers)[first.id];
        conns == old(conns)[d := old(conns)[d].(offset := Minus(Minus(ack.ackNum, h.seqNum), 1))]
        && memory.headers == old(memory.headers)[first.id := WithAck(ack, Plus(h.seqNum, 1))]
    {
      hide PacketContainer.Container.Valid, Minus, Plus;
      var ack := memory.headers[first.id];
      conns := conns[d := conns[d].(offset := Minus(Minus(ack.ackNum, h.seqNum), 1))];
      memory.Write(first, WithAck(ack, Plus(h.seqNum, 1)));
      var _ := inside.AddPacket(first);
    }

    /** The list is cleared; the packets behind the first are in no container. */
    method ForgetHeld(d: Data, rest: seq<Pointer>)
      requires d in conns
      modifies this
      ensures conns == old(conns)[d := old(conns)[d].(held := [])] && lost == old(lost) + Live(rest)
    {
      lost := lost + Live(rest);
      conns := conns[d := conns[d].(held := [])];
    }

    method AdjustHeldPackets(rest: seq<Pointer>, offset: bv32) returns (ok: bool)
      requires InRange(rest, |memory.headers|)
      modifies memory`headers
      ensures ok <==> Full(rest)
      ensures ok ==> memory.headers == AdjustRest(old(memory.headers), rest, offset)
    {
      var k := 0;
      while k < |rest|
        invariant 0 <= k <= |rest| && |memory.headers| == old(|memory.headers|) && Full(rest[..k])
        invariant Full(rest) ==>
          AdjustRest(memory.headers, rest[k..], offset) == AdjustRest(old(memory.headers), rest, offset)
      {
        if rest[k] == Null { return false; }
        var h := memory.headers[rest[k].id];
        memory.Write(rest[k], WithAck(h, Minus(h.ackNum, offset)));
        assert rest[k..][1..] == rest[k + 1..];
        k := k + 1;
      }
      ok := true;
    }

    /** SYN-ACK: the first held packet goes inside and fixes the offset; the others are
        adjusted and let go. False stands for a null dereference. */
    method ReleaseHeld(d: Data, h: Header) returns (ok: bool)
      requires Linked() && d in conns && conns[d].held != [] && |inside.slots| < 65535
      requires InRange(conns[d].held, |memory.headers|)
      modifies Footprint()
      ensures Linked() && inside.nbPolled == old(inside.nbPolled) && outside.nbPolled == old(outside.nbPolled)
      ensures ok <==> Full(old(conns[d].held))
      ensures ok ==> Released(old(View()), View(), d, h)
    {
      hide PacketContainer.Container.Valid, Minus, Plus, Live, AdjustRest, AdjustHeld, Released;
      var held := conns[d].held;
      assert held == [held[0]] + held[1..];
      if held[0] == Null { return false; }
      ReleaseFirst(d, held[0], h);
      ok := AdjustHeldPackets(held[1..], conns[d].offset);
      ForgetHeld(d, held[1..]);
      if ok {
        ReleasedParts(old(View()), View(), d, h);
      }
    }

    /** The outcome, as seen on the object: false when the program would have crashed. */
    twostate predicate Became(o: Outcome, ok: bool)
      reads this, memory, inside, outside
    {
      if o.Crashed? then !ok else ok && View() == o.w
    }

    method OnSynAckToOutside(i: nat, d: Data, h: Header) returns (ok: bool)
      requires Linked() && Sane(View()) && |inside.slots| < 65535
      requires i < |outside.slots| && outside.slots[i].Mbuf? && outside.slots[i].id < |memory.headers|
      modifies Footprint()
      ensures Linked() && inside.nbPolled == old(inside.nbPolled) && outside.nbPolled == old(outside.nbPolled)
      ensures ReleasedReal(SynAckToOutside(old(conns), old(memory.headers), d, h), old(|memory.headers|))
      ensures Became(ApplyToOutside(old(View()), i, SynAckToOutside(old(conns), old(memory.headers), d, h)), ok)
    {
      hide PacketContainer.Container.Valid, Minus, Plus, Live, AdjustHeld;
      ok := true;
      if d !in conns {
        var _ := outside.DropPacket(i);
      } else if conns[d].held != [] {
        NullOrFull(conns[d].held);
        ok := ReleaseHeld(d, h);
      }
    }

    method OnFinToOutside(i: nat, p: Pointer, d: Data, h: Header)
      requires Linked() && i < |outside.slots| && outside.slots[i] == p && p.Mbuf? && p.id < |memory.headers|
      modifies Footprint()
      ensures Linked() && inside.nbPolled == old(inside.nbPolled) && outside.nbPolled == old(outside.nbPolled)
      ensures Running(View()) == ApplyToOutside(old(View()), i, FinToOutside(old(conns), d, h))
    {
      hide PacketContainer.Container.Valid, Plus;
      if d !in conns {
        var _ := outside.DropPacket(i);
      } else if conns[d].finSeenToInside {
        conns := conns[d := conns[d].(finSeenToOutside := true, ackToInsideExpected := true)];
        memory.Write(p, WithSeq(h, Plus(h.seqNum, conns[d].offset)));
      } else if !conns[d].finSeenToOutside {
        conns := conns[d := conns[d].(finSeenToOutside := true)];
        memory.Write(p, WithSeq(h, Plus(h.seqNum, conns[d].offset)));
      }
    }

    method OnRstToOutside(i: nat, p: Pointer, d: Data, h: Header)
      requires Linked() && i < |outside.slots| && outside.slots[i] == p && p.Mbuf? && p.id < |memory.headers|
      modifies Footprint()
      ensures Linked() && inside.nbPolled == old(inside.nbPolled) && outside.nbPolled == old(outside.nbPolled)
      ensures Running(View()) == ApplyToOutside(old(View()), i, RstToOutside(old(conns), d, h))
    {
      hide PacketContainer.Container.Valid, Plus, Live;
      if d !in conns {
        var _ := outside.DropPacket(i);
      } else {
        memory.Write(p, WithSeq(h, Plus(h.seqNum, conns[d].offset)));
        EraseEntry(d);
      }
    }

    method OnAckToOutside(i: nat, p: Pointer, d: Data, h: Header)
      requires Linked() && i < |outside.slots| && outside.slots[i] == p && p.Mbuf? && p.id < |memory.headers|
      modifies Footprint()
      ensures Linked() && inside.nbPolled == old(inside.nbPolled) && outside.nbPolled == old(outside.nbPolled)
      ensures Running(View()) == ApplyToOutside(old(View()), i, AckToOutside(old(conns), d, h))
    {
      hide PacketContainer.Container.Valid, Plus, Live;
      if d !in conns {
        conns := conns[d := Entry(Null)];
      } else if conns[d].finSeenToInside && conns[d].finSeenToOutside && conns[d].ackToOutsideExpected {
        memory.Write(p, WithSeq(h, Plus(h.seqNum, conns[d].offset)));
        EraseEntry(d);
      } else {
        memory.Write(p, WithSeq(h, Plus(h.seqNum, conns[d].offset)));
      }
    }

    /** The body of the loop over packets to the outside. */
    method TreatPacketToOutside(i: nat) returns (ok: bool)
      requires Linked() && Sane(View()) && i < |outside.slots| && outside.slots[i].Mbuf?
      requires |inside.slots| < 65535
      modifies Footprint()
      ensures Linked() && inside.nbPolled == old(inside.nbPolled) && outside.nbPolled == old(outside.nbPolled)
      ensures Became(StepToOutside(old(View()), i), ok)
    {
      hide PacketContainer.Container.Valid, Has, Plus, Minus, Live;
      hide SynAckToOutside, RstToOutside, FinToOutside, AckToOutside;
      var r := outside.GetPacketAtIndex(i);
      var p := r.p;
      var h := memory.headers[p.id];
      ok := true;
      if h.tcp {
        var d := KeyToOutside(h);
        if Has(h, SYNACK) {
          ok := OnSynAckToOutside(i, d, h);
        } else if Has(h, SYN) {
        } else if Has(h, RST) {
          OnRstToOutside(i, p, d, h);
        } else if Has(h, FIN) {
          OnFinToOutside(i, p, d, h);
        } else if Has(h, ACK) {
          OnAckToOutside(i, p, d, h);
        }
      }
    }

    /** treat_packets_to_outside */
    method TreatPacketsToOutside() returns (ok: bool)
      requires Linked() && Sane(View()) && Full(outside.slots[..outside.nbPolled])
      requires |inside.slots| + outside.nbPolled <= 65535
      modifies Footprint()
      ensures ok ==> Linked() && Sane(View())
      ensures Became(TreatToOutside(old(View()), 0, old(outside.nbPolled)), ok)
    {
      var n := outside.nbPolled;
      assert n <= |outside.slots|;
      hide PacketContainer.Container.Valid, Sane, StepToOutside, TreatToOutside;
      assert outside.slots[0..n] == outside.slots[..n];
      var i := 0;
      while i < outside.nbPolled
        invariant i <= n == outside.nbPolled <= |outside.slots| && Linked() && Sane(View()) && Full(outside.slots[i..n])
        invariant |inside.slots| + n - i <= 65535
        invariant TreatToOutside(View(), i, n) == TreatToOutside(old(View()), 0, n)
      {
        FirstToOutside(View(), i, n);
        ok := TreatPacketToOutside(i);
        if !ok { return; }
        i := i + 1;
      }
      NoneToOutside(View(), n);
      ok := true;
    }
  }
}
