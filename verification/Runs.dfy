/** Whole runs: any interleaving of polls, treated packets and sends. */
module Runs {
  import opened ConnectionHash
  import opened Cookie
  import opened Mbufs
  import opened Connections
  import opened Treatment
  import opened Ownership

  ghost predicate InsideStep(w: World, v: World, hash: Hash, i: nat, now: bv8) {
    Sane(w) && i < |w.inside| && w.inside[i].Mbuf? && v == StepToInside(w, hash, now, i)
  }

  ghost predicate OutsideStep(w: World, v: World, i: nat) {
    Sane(w) && i < |w.outside| && w.outside[i].Mbuf? && StepToOutside(w, i) == Running(v)
  }

  ghost predicate PollStep(w: World, v: World, arrived: seq<Header>) {
    v == PollInside(w, arrived) || v == PollOutside(w, arrived)
  }

  ghost predicate SendStep(w: World, v: World, accept: nat -> nat) {
    v == SendInside(w, accept) || v == SendOutside(w, accept)
  }

  ghost predicate Next(w: World, v: World, hash: Hash) {
    || (exists i: nat, now: bv8 :: InsideStep(w, v, hash, i, now))
    || (exists i: nat :: OutsideStep(w, v, i))
    || (exists arrived: seq<Header> :: PollStep(w, v, arrived))
    || (exists accept: nat -> nat :: SendStep(w, v, accept))
  }

  ghost predicate IsRun(ws: seq<World>, hash: Hash) {
    |ws| > 0 && forall k :: 0 <= k < |ws| - 1 ==> Next(ws[k], ws[k + 1], hash)
  }

  function Start(): World { World(map[], [], [], [], [], [], [], []) }

  // ----- What holds in every reachable state -----

  /** A null pointer can only be the first held one: the entry was made for a packet
      that nobody held. */
  ghost predicate NullOnlyFirst(conns: Table) {
    forall d, k :: d in conns && 0 < k < |conns[d].held| ==> conns[d].held[k].Mbuf?
  }

  ghost predicate Reachable(w: World) {
    Owned(w) && AllClosing(w.conns) && NullOnlyFirst(w.conns)
  }

  lemma {:induction false} NullsToInside(conns: Table, hash: Hash, now: bv8, id: nat, h: Header)
    requires NullOnlyFirst(conns)
    ensures NullOnlyFirst(JudgeToInside(conns, hash, now, id, h).conns)
  {
    hide Has, Check, Live, Minus, Plus, CookieReply, CookieRst, AdmittedSyn, KeyToInside;
  }

  lemma {:induction false} NullsToOutside(conns: Table, mem: seq<Header>, h: Header)
    requires NullOnlyFirst(conns) && HeldInRange(conns, |mem|)
    ensures NullOnlyFirst(JudgeToOutside(conns, mem, h).conns)
  {
    hide Has, Live, Minus, Plus, KeyToOutside;
  }

  /** The table after a step is the judged one, or the old one. */
  lemma {:induction false} InsideTable(w: World, v: World, hash: Hash, i: nat, now: bv8)
    requires InsideStep(w, v, hash, i, now)
    ensures var h := w.mem[w.inside[i].id];
      v.conns == if h.tcp then JudgeToInside(w.conns, hash, now, w.inside[i].id, h).conns else w.conns
  {
    hide JudgeToInside;
  }

  lemma {:induction false} OutsideTable(w: World, v: World, i: nat)
    requires OutsideStep(w, v, i)
    ensures var h := w.mem[w.outside[i].id];
      v.conns == if h.tcp then JudgeToOutside(w.conns, w.mem, h).conns else w.conns
  {
    ReleasedAreReal(w.conns, w.mem, w.mem[w.outside[i].id]);
    hide JudgeToOutside, AdjustHeld;
  }

  lemma {:induction false} InsideReachable(w: World, v: World, hash: Hash, i: nat, now: bv8)
    requires Reachable(w) && InsideStep(w, v, hash, i, now)
    ensures Reachable(v)
  {
    var h := w.mem[w.inside[i].id];
    hide Owned, AllClosing, NullOnlyFirst, StepToInside, JudgeToInside, Progress;
    StepToInsideOwned(w, hash, now, i);
    InsideTable(w, v, hash, i, now);
    if h.tcp {
      ToInsideProgress(w.conns, hash, now, w.inside[i].id, h);
      ProgressKeepsClosing(w.conns, v.conns, KeyToInside(h), h);
      NullsToInside(w.conns, hash, now, w.inside[i].id, h);
    }
  }

  lemma {:induction false} OutsideReachable(w: World, v: World, i: nat)
    requires Reachable(w) && OutsideStep(w, v, i)
    ensures Reachable(v)
  {
    var h := w.mem[w.outside[i].id];
    hide Owned, AllClosing, NullOnlyFirst, StepToOutside, JudgeToOutside, Progress;
    StepToOutsideOwned(w, i);
    OutsideTable(w, v, i);
    if h.tcp {
      ToOutsideProgress(w.conns, w.mem, h);
      ProgressKeepsClosing(w.conns, v.conns, KeyToOutside(h), h);
      NullsToOutside(w.conns, w.mem, h);
    }
  }

  lemma {:induction false} NextReachable(w: World, v: World, hash: Hash)
    requires Reachable(w) && Next(w, v, hash)
    ensures Reachable(v)
  {
    hide Owned, AllClosing, NullOnlyFirst, InsideStep, OutsideStep;
    if i: nat, now: bv8 :| InsideStep(w, v, hash, i, now) {
      InsideReachable(w, v, hash, i, now);
    } else if i: nat :| OutsideStep(w, v, i) {
      OutsideReachable(w, v, i);
    } else if arrived: seq<Header> :| PollStep(w, v, arrived) {
      PollOwned(w, arrived);
    } else {
      var accept: nat -> nat :| SendStep(w, v, accept);
      SendOwned(w, accept);
    }
  }

  /** In every state of every run each buffer is in exactly one place, acknowledgments
      are expected exactly after FINs in both directions, and only the first held
      pointer can be null. */
  lemma {:induction false} RunReachable(ws: seq<World>, hash: Hash)
    requires IsRun(ws, hash) && Reachable(ws[0])
    ensures forall k :: 0 <= k < |ws| ==> Reachable(ws[k])
  {
    hide Reachable, Next;
    if |ws| <= 1 {
    } else {
      var n := |ws| - 1;
      RunReachable(ws[..n], hash);
      assert ws[..n][n - 1] == ws[n - 1] && Next(ws[n - 1], ws[n - 1 + 1], hash);
      NextReachable(ws[n - 1], ws[n], hash);
      forall k | 0 <= k < |ws| ensures Reachable(ws[k]) {
        if k < n { assert ws[..n][k] == ws[k]; }
      }
    }
  }

  lemma {:induction false} StartReachable()
    ensures Reachable(Start())
  {}

  /** In a reachable state a packet from inside crashes the program exactly when it is a
      SYN-ACK for an entry whose first held pointer is null. */
  lemma {:induction false} CrashExactly(w: World, i: nat)
    requires Reachable(w) && Sane(w) && i < |w.outside| && w.outside[i].Mbuf?
    ensures var h := w.mem[w.outside[i].id]; var d := KeyToOutside(h);
      StepToOutside(w, i).Crashed? <==>
        h.tcp && Has(h, SYNACK) && d in w.conns && w.conns[d].held != [] && w.conns[d].held[0] == Null
  {
    var h := w.mem[w.outside[i].id];
    var d := KeyToOutside(h);
    ReleasedAreReal(w.conns, w.mem, h);
    if d in w.conns && Null in w.conns[d].held {
      var k :| 0 <= k < |w.conns[d].held| && w.conns[d].held[k] == Null;
      assert k == 0;
    }
    hide Owned, Has, Minus, Plus, Live, AdjustHeld, KeyToOutside;
  }

  // ----- Closing, over a step of any kind -----

  /** The packet treated in a step. */
  ghost predicate Treats(w: World, v: World, hash: Hash, d: Data, h: Header) {
    || (exists i: nat, now: bv8 :: InsideStep(w, v, hash, i, now) && h == w.mem[w.inside[i].id] && KeyToInside(h) == d)
    || (exists i: nat :: OutsideStep(w, v, i) && h == w.mem[w.outside[i].id] && KeyToOutside(h) == d)
  }

  lemma {:induction false} StepIsReal(w: World, v: World, hash: Hash, i: nat, now: bv8)
    requires InsideStep(w, v, hash, i, now)
    ensures Sane(w) && i < |w.inside| && w.inside[i].Mbuf?
  {}

  lemma {:induction false} OutsideStepIsReal(w: World, v: World, i: nat)
    requires OutsideStep(w, v, i)
    ensures Sane(w) && i < |w.outside| && w.outside[i].Mbuf?
  {}

  lemma {:induction false} KeepsFlags(info: Info)
    ensures Advances(info, info)
  {}

  /** Whatever happens next, an entry keeps its flags and its invariant, or it leaves
      because of a RST or of a non-FIN ACK after both FINs of its own connection. */
  lemma {:induction false} NextKeepsEntry(w: World, v: World, hash: Hash, d: Data)
    requires Next(w, v, hash) && d in w.conns
    ensures if d in v.conns then Advances(w.conns[d], v.conns[d])
      else exists h :: Treats(w, v, hash, d, h) && h.tcp && Leaves(w.conns[d], h)
  {
    hide InsideStep, OutsideStep, Advances, Leaves;
    KeepsFlags(w.conns[d]);
    if i: nat, now: bv8 :| InsideStep(w, v, hash, i, now) {
      assert Sane(w) && i < |w.inside| && w.inside[i].Mbuf? by { StepIsReal(w, v, hash, i, now); }
      var h := w.mem[w.inside[i].id];
      InsideTable(w, v, hash, i, now);
      hide JudgeToInside, KeyToInside;
      if h.tcp {
        ToInsideProgress(w.conns, hash, now, w.inside[i].id, h);
        assert d !in v.conns ==> Treats(w, v, hash, d, h);
      }
    } else if i: nat :| OutsideStep(w, v, i) {
      assert Sane(w) && i < |w.outside| && w.outside[i].Mbuf? by { OutsideStepIsReal(w, v, i); }
      var h := w.mem[w.outside[i].id];
      OutsideTable(w, v, i);
      hide JudgeToOutside, KeyToOutside;
      if h.tcp {
        ToOutsideProgress(w.conns, w.mem, h);
        assert d !in v.conns ==> Treats(w, v, hash, d, h);
      }
    }
  }

  // ----- What the treatment frees -----

  /** Exactly which packets to the inside are freed: SYNs that are answered, FINs of an
      unknown connection, and ACKs that show no cookie. A packet of a known connection is
      freed only if it is a SYN. */
  lemma {:induction false} InsideFrees(w: World, v: World, hash: Hash, i: nat, now: bv8)
    requires InsideStep(w, v, hash, i, now)
    ensures var id := w.inside[i].id; var h := w.mem[id]; var d := KeyToInside(h);
      var stray := d !in w.conns
        && ((Plain(h) && Has(h, FIN)) || (PlainAck(h) && !Check(hash, now, Minus(h.ackNum, 1), d)));
      v.freed == w.freed + if h.tcp && ((Has(h, SYN) && !Has(h, ACK)) || stray) then [id] else []
  {
    StraysDropped(w.conns, w.mem, hash, now, w.inside[i].id, w.mem[w.inside[i].id]);
    hide JudgeToInside, Has, Check, Minus, KeyToInside, Plain, PlainAck;
  }

  /** A packet to the outside is freed exactly when the table does not know its
      connection and it is a SYN-ACK, a RST or a FIN. */
  lemma {:induction false} OutsideFrees(w: World, v: World, i: nat)
    requires OutsideStep(w, v, i)
    ensures var id := w.outside[i].id; var h := w.mem[id];
      var stray := KeyToOutside(h) !in w.conns
        && (Has(h, SYNACK) || (!Has(h, SYN) && (Has(h, RST) || Has(h, FIN))));
      v.freed == w.freed + if h.tcp && stray then [id] else []
  {
    var h := w.mem[w.outside[i].id];
    ReleasedAreReal(w.conns, w.mem, h);
    StraysDropped(w.conns, w.mem, (t, d) => 0, 0, 0, h);
    hide JudgeToOutside, Has, KeyToOutside, AdjustHeld;
  }

  // ----- How an entry was made decides whether it can crash -----

  /** The first thing held is a null pointer. */
  predicate NullHeaded(conns: Table, d: Data) {
    d in conns && conns[d].held != [] && conns[d].held[0] == Null
  }

  /** A step that makes the entry although no packet is held for it: a SYN-ACK from
      outside, or a plain ACK from inside. */
  ghost predicate MadeUnheld(w: World, v: World, hash: Hash, d: Data) {
    || (exists i: nat, now: bv8 :: InsideStep(w, v, hash, i, now)
          && var h := w.mem[w.inside[i].id]; h.tcp && KeyToInside(h) == d && Has(h, SYNACK))
    || (exists i: nat :: OutsideStep(w, v, i)
          && var h := w.mem[w.outside[i].id]; h.tcp && KeyToOutside(h) == d && PlainAck(h))
  }

  /** A step that makes the entry for an ACK that shows its cookie. */
  ghost predicate MadeByCookie(w: World, v: World, hash: Hash, d: Data) {
    exists i: nat, now: bv8 :: InsideStep(w, v, hash, i, now)
      && var h := w.mem[w.inside[i].id];
         h.tcp && KeyToInside(h) == d && PlainAck(h) && Check(hash, now, Minus(h.ackNum, 1), d)
  }

  lemma {:induction false} InsideBirth(w: World, v: World, hash: Hash, i: nat, now: bv8, d: Data)
    requires InsideStep(w, v, hash, i, now) && d !in w.conns
    ensures var h := w.mem[w.inside[i].id];
      var shown := PlainAck(h) && Check(hash, now, Minus(h.ackNum, 1), d);
      && (d in v.conns <==> h.tcp && KeyToInside(h) == d && (Has(h, SYNACK) || shown))
      && (d in v.conns ==> (NullHeaded(v.conns, d) <==> Has(h, SYNACK)))
  {
    var h := w.mem[w.inside[i].id];
    InsideTable(w, v, hash, i, now);
    SynAckBits(h);
    hide JudgeToInside, Has, Check, Minus, KeyToInside, Leaves, Starts, Advances;
    if h.tcp {
      ToInsideProgress(w.conns, hash, now, w.inside[i].id, h);
      ToInsideExactly(w.conns, hash, now, w.inside[i].id, h);
    }
  }

  lemma {:induction false} OutsideBirth(w: World, v: World, i: nat, d: Data)
    requires OutsideStep(w, v, i) && d !in w.conns
    ensures var h := w.mem[w.outside[i].id];
      && (d in v.conns <==> h.tcp && KeyToOutside(h) == d && PlainAck(h))
      && (d in v.conns ==> NullHeaded(v.conns, d))
  {
    var h := w.mem[w.outside[i].id];
    OutsideTable(w, v, i);
    hide JudgeToOutside, Has, KeyToOutside, Leaves, Starts, Advances;
    if h.tcp {
      ToOutsideProgress(w.conns, w.mem, h);
      ToOutsideExactly(w.conns, w.mem, h);
    }
  }

  lemma {:induction false} UnheldIsNullHeaded(w: World, v: World, hash: Hash, d: Data)
    requires d !in w.conns && d in v.conns
    ensures MadeUnheld(w, v, hash, d) ==> NullHeaded(v.conns, d)
  {
    hide StepToInside, StepToOutside, NullHeaded, Has, PlainAck, KeyToInside, KeyToOutside;
    forall i: nat, now: bv8 | InsideStep(w, v, hash, i, now) && Has(w.mem[w.inside[i].id], SYNACK)
      ensures NullHeaded(v.conns, d)
    {
      InsideBirth(w, v, hash, i, now, d);
    }
    forall i: nat | OutsideStep(w, v, i) ensures NullHeaded(v.conns, d) {
      OutsideBirth(w, v, i, d);
    }
  }

  lemma {:induction false} CookieIsNot(w: World, v: World, hash: Hash, d: Data)
    requires d !in w.conns && d in v.conns
    ensures MadeByCookie(w, v, hash, d) ==> !NullHeaded(v.conns, d)
  {
    hide StepToInside, NullHeaded, Check, Minus, KeyToInside;
    forall i: nat, now: bv8 | InsideStep(w, v, hash, i, now) && PlainAck(w.mem[w.inside[i].id])
      ensures !NullHeaded(v.conns, d)
    {
      InsideBirth(w, v, hash, i, now, d);
      SynAckBits(w.mem[w.inside[i].id]);
    }
  }

  /** An entry is made in one of the two ways, and the first held pointer tells which. */
  lemma {:induction false} Birth(w: World, v: World, hash: Hash, d: Data)
    requires Next(w, v, hash) && d !in w.conns && d in v.conns
    ensures NullHeaded(v.conns, d) <==> MadeUnheld(w, v, hash, d)
    ensures !NullHeaded(v.conns, d) <==> MadeByCookie(w, v, hash, d)
  {
    UnheldIsNullHeaded(w, v, hash, d);
    CookieIsNot(w, v, hash, d);
    if i: nat, now: bv8 :| InsideStep(w, v, hash, i, now) {
      InsideBirth(w, v, hash, i, now, d);
      hide StepToInside, StepToOutside, NullHeaded, Has, PlainAck, Check, Minus, KeyToInside, KeyToOutside;
      if Has(w.mem[w.inside[i].id], SYNACK) {
        assert MadeUnheld(w, v, hash, d);
      } else {
        assert MadeByCookie(w, v, hash, d);
      }
    } else if i: nat :| OutsideStep(w, v, i) {
      OutsideBirth(w, v, i, d);
      hide StepToInside, StepToOutside, NullHeaded, Has, PlainAck, Check, Minus, KeyToInside, KeyToOutside;
      assert MadeUnheld(w, v, hash, d);
    }
  }

  /** The first held pointer does not turn null or stop being null; under a null one the
      held packets only become more. */
  ghost predicate SameHead(before: Table, after: Table, d: Data) {
    d in before && d in after ==>
      (NullHeaded(after, d) <==> NullHeaded(before, d))
      && (NullHeaded(before, d) ==> before[d].held <= after[d].held)
  }

  lemma {:induction false} InsideKeepsHead(conns: Table, hash: Hash, now: bv8, id: nat, h: Header, d: Data)
    ensures SameHead(conns, JudgeToInside(conns, hash, now, id, h).conns, d)
  {
    ToInsideProgress(conns, hash, now, id, h);
    ToInsideExactly(conns, hash, now, id, h);
    hide JudgeToInside, Has, Check, Minus, KeyToInside, Leaves, Starts, Advances, Closes;
  }

  lemma {:induction false} OutsideKeepsHead(conns: Table, mem: seq<Header>, h: Header, d: Data)
    requires HeldInRange(conns, |mem|)
    ensures SameHead(conns, JudgeToOutside(conns, mem, h).conns, d)
  {
    ToOutsideProgress(conns, mem, h);
    ToOutsideExactly(conns, mem, h);
    hide JudgeToOutside, Has, KeyToOutside, Leaves, Starts, Advances, Closes;
  }

  lemma {:induction false} SameTableSameHead(conns: Table, d: Data)
    ensures SameHead(conns, conns, d)
  {}

  lemma {:induction false} HeadStays(w: World, v: World, hash: Hash, d: Data)
    requires Next(w, v, hash)
    ensures SameHead(w.conns, v.conns, d)
  {
    hide SameHead, InsideStep, OutsideStep;
    SameTableSameHead(w.conns, d);
    if i: nat, now: bv8 :| InsideStep(w, v, hash, i, now) {
      StepIsReal(w, v, hash, i, now);
      InsideTable(w, v, hash, i, now);
      InsideKeepsHead(w.conns, hash, now, w.inside[i].id, w.mem[w.inside[i].id], d);
    } else if i: nat :| OutsideStep(w, v, i) {
      OutsideStepIsReal(w, v, i);
      OutsideTable(w, v, i);
      OutsideKeepsHead(w.conns, w.mem, w.mem[w.outside[i].id], d);
    }
  }

  /** The entry d of the last state was made in step b and has been there ever since. */
  ghost predicate BornAt(ws: seq<World>, b: int, d: Data) {
    0 <= b < |ws| - 1 && d !in ws[b].conns && forall k :: b < k < |ws| ==> d in ws[k].conns
  }

  lemma {:induction false} BornSometime(ws: seq<World>, d: Data)
    requires |ws| > 0 && d !in ws[0].conns && d in ws[|ws| - 1].conns
    ensures exists b :: BornAt(ws, b, d)
  {
    var n := |ws| - 1;
    if d !in ws[n - 1].conns {
      assert BornAt(ws, n - 1, d);
    } else {
      BornSometime(ws[..n], d);
      var b :| BornAt(ws[..n], b, d);
      assert forall k :: 0 <= k < n ==> ws[..n][k] == ws[k];
      assert BornAt(ws, b, d);
    }
  }

  /** Over any run the first held pointer of an entry is null exactly when the step that
      made it held no packet, however much happened since. */
  lemma {:induction false} HeadDecidedAtBirth(ws: seq<World>, hash: Hash, d: Data, b: int)
    requires IsRun(ws, hash) && BornAt(ws, b, d)
    ensures NullHeaded(ws[|ws| - 1].conns, d) <==> MadeUnheld(ws[b], ws[b + 1], hash, d)
    decreases |ws|
  {
    hide Next, MadeUnheld, NullHeaded;
    var n := |ws| - 1;
    assert Next(ws[n - 1], ws[n - 1 + 1], hash);
    if b == n - 1 {
      Birth(ws[b], ws[b + 1], hash, d);
    } else {
      var front := ws[..n];
      assert forall k :: 0 <= k < n ==> front[k] == ws[k];
      forall k | 0 <= k < |front| - 1 ensures Next(front[k], front[k + 1], hash) {
        assert Next(ws[k], ws[k + 1], hash);
      }
      HeadDecidedAtBirth(front, hash, d, b);
      HeadStays(ws[n - 1], ws[n], hash, d);
    }
  }

  /** From the empty start, whatever packets came: the next packet from inside crashes the
      program exactly when it is a SYN-ACK for an entry that a SYN-ACK from outside or a
      plain ACK from inside made. An entry made by a cookie never crashes. */
  lemma {:induction false} CrashFromPackets(ws: seq<World>, hash: Hash, i: nat)
    requires IsRun(ws, hash) && ws[0] == Start()
    requires var w := ws[|ws| - 1]; Sane(w) && i < |w.outside| && w.outside[i].Mbuf?
    ensures var w := ws[|ws| - 1]; var h := w.mem[w.outside[i].id]; var d := KeyToOutside(h);
      StepToOutside(w, i).Crashed? <==>
        h.tcp && Has(h, SYNACK) && exists b :: BornAt(ws, b, d) && MadeUnheld(ws[b], ws[b + 1], hash, d)
  {
    var w := ws[|ws| - 1];
    var h := w.mem[w.outside[i].id];
    var d := KeyToOutside(h);
    StartReachable();
    RunReachable(ws, hash);
    CrashExactly(w, i);
    assert StepToOutside(w, i).Crashed? <==> h.tcp && Has(h, SYNACK) && NullHeaded(w.conns, d);
    hide Next, MadeUnheld, Reachable, StepToOutside, Has, KeyToOutside;
    forall b | BornAt(ws, b, d) ensures NullHeaded(w.conns, d) <==> MadeUnheld(ws[b], ws[b + 1], hash, d) {
      HeadDecidedAtBirth(ws, hash, d, b);
    }
    if NullHeaded(w.conns, d) {
      BornSometime(ws, d);
      var b :| BornAt(ws, b, d);
      assert MadeUnheld(ws[b], ws[b + 1], hash, d);
    }
  }

  // ----- Splicing -----

  /** The step treats a SYN-ACK from inside, of connection d and with sequence number isn. */
  ghost predicate SynAckStep(w: World, v: World, d: Data, isn: bv32) {
    exists i: nat :: OutsideStep(w, v, i)
      && var h := w.mem[w.outside[i].id]; h.tcp && Has(h, SYNACK) && KeyToOutside(h) == d && h.seqNum == isn
  }

  ghost predicate AnySynAck(w: World, v: World, d: Data) {
    exists isn: bv32 :: SynAckStep(w, v, d, isn)
  }

  /** The step in which the internal host's SYN-ACK fixes the offset: the held ACK is
      sent inside and acknowledges isn + 1. Every packet to the outside stays as it is, so
      the SYN-ACK leaves with its own sequence number. */
  ghost predicate Answered(w: World, v: World, d: Data, isn: bv32) {
    && SynAckStep(w, v, d, isn)
    && d in w.conns && |w.conns[d].held| > 0
    && var first := w.conns[d].held[0];
    && first.Mbuf? && first.id < |w.mem|
    && v.inside == w.inside + [first]
    && first.id < |v.mem| == |w.mem| && v.mem[first.id] == WithAck(w.mem[first.id], Plus(isn, 1))
    && v.outside == w.outside && forall x :: 0 <= x < |w.mem| && Mbuf(x) in w.outside ==> v.mem[x] == w.mem[x]
  }

  lemma {:induction false} AdjustRestFrame(mem: seq<Header>, rest: seq<Pointer>, offset: bv32, x: nat)
    requires Full(rest) && InRange(rest, |mem|) && x < |mem| && Mbuf(x) !in rest
    ensures AdjustRest(mem, rest, offset)[x] == mem[x]
    decreases |rest|
  {
    if rest == [] {
    } else {
      var h := mem[rest[0].id];
      AdjustRestFrame(mem[rest[0].id := WithAck(h, Minus(h.ackNum, offset))], rest[1..], offset, x);
    }
  }

  /** Each packet behind the first is adjusted by the offset, if no buffer is held twice. */
  lemma {:induction false} AdjustRestAt(mem: seq<Header>, rest: seq<Pointer>, offset: bv32, k: nat)
    requires Full(rest) && InRange(rest, |mem|) && k < |rest|
    requires forall i, j :: 0 <= i < j < |rest| ==> rest[i] != rest[j]
    ensures var id := rest[k].id; AdjustRest(mem, rest, offset)[id] == WithAck(mem[id], Minus(mem[id].ackNum, offset))
    decreases |rest|
  {
    var h := mem[rest[0].id];
    var next := mem[rest[0].id := WithAck(h, Minus(h.ackNum, offset))];
    hide Minus;
    if k == 0 {
      AdjustRestFrame(next, rest[1..], offset, rest[0].id);
    } else {
      AdjustRestAt(next, rest[1..], offset, k - 1);
    }
  }

  lemma {:induction false} AdjustHeldAt(mem: seq<Header>, held: seq<Pointer>, isn: bv32, offset: bv32, k: nat)
    requires 0 < k < |held| && Full(held) && InRange(held, |mem|)
    requires forall i, j :: 0 <= i < j < |held| ==> held[i] != held[j]
    ensures var id := held[k].id;
      AdjustHeld(mem, held, isn, offset)[id] == WithAck(mem[id], Minus(mem[id].ackNum, offset))
  {
    hide Plus, Minus, AdjustRest;
    assert forall i :: 0 <= i < |held[1..]| ==> held[1..][i] == held[i + 1];
    AdjustRestAt(mem[held[0].id := WithAck(mem[held[0].id], Plus(isn, 1))], held[1..], offset, k - 1);
  }

  lemma {:induction false} AdjustHeldFrame(mem: seq<Header>, held: seq<Pointer>, isn: bv32, offset: bv32, x: nat)
    requires |held| > 0 && Full(held) && InRange(held, |mem|) && x < |mem| && Mbuf(x) !in held
    ensures AdjustHeld(mem, held, isn, offset)[x] == mem[x]
  {
    AdjustRestFrame(mem[held[0].id := WithAck(mem[held[0].id], Plus(isn, 1))], held[1..], offset, x);
  }

  /** The first held buffer is not held a second time. */
  lemma {:induction false} FirstHeldOnce(w: World, d: Data)
    requires Owned(w) && d in w.conns && |w.conns[d].held| > 0 && w.conns[d].held[0].Mbuf?
    ensures w.conns[d].held[0] !in w.conns[d].held[1..]
  {
    var held := w.conns[d].held;
    var x := held[0].id;
    LiveStep(held);
    LiveMembers(held[1..], x);
    hide Live, HeldIds;
    HeldOne(w.conns, d);
    assert Count(w, x) <= 1;
    CountConcat([x], Live(held[1..]), x);
  }

  /** A packet to the inside writes only to its own buffer and to new ones. */
  lemma {:induction false} InsideWrites(w: World, v: World, hash: Hash, i: nat, now: bv8, x: nat)
    requires InsideStep(w, v, hash, i, now) && x < |w.mem| && x != w.inside[i].id
    ensures x < |v.mem| && v.mem[x] == w.mem[x]
  {
    hide JudgeToInside;
  }

  lemma {:induction false} OpenedInside(w: World, v: World, hash: Hash, i: nat, now: bv8, d: Data, cookie: bv32)
    requires Owned(w) && InsideStep(w, v, hash, i, now) && Opened(w.conns, w.mem, d, cookie) && d in v.conns
    ensures Opened(v.conns, v.mem, d, cookie)
  {
    var id := w.inside[i].id;
    SlotsApart(w, id);
    InsideTable(w, v, hash, i, now);
    if w.mem[id].tcp { OpenedToInside(w.conns, w.mem, hash, now, id, w.mem[id], d, cookie); }
    InsideWrites(w, v, hash, i, now, w.conns[d].held[0].id);
    StepToInsideKeeps(w, hash, now, i);
    hide Owned, JudgeToInside, StepToInside, Plus;
  }

  /** What a packet to the outside writes: its own buffer, or the held ones it releases. */
  lemma {:induction false} OutsideWrites(w: World, v: World, i: nat, x: nat)
    requires OutsideStep(w, v, i) && x < |w.mem| && x != w.outside[i].id
    requires var d := KeyToOutside(w.mem[w.outside[i].id]);
      d in w.conns && Has(w.mem[w.outside[i].id], SYNACK) ==> Mbuf(x) !in w.conns[d].held
    ensures |v.mem| == |w.mem| && v.mem[x] == w.mem[x]
  {
    var h := w.mem[w.outside[i].id];
    var d := KeyToOutside(h);
    ReleasedAreReal(w.conns, w.mem, h);
    hide Has, Live, AdjustHeld, KeyToOutside, Minus, Plus;
    if h.tcp {
      var t := JudgeToOutside(w.conns, w.mem, h);
      if t.verdict.Release? {
        assert d in w.conns && t.verdict.held == w.conns[d].held && Has(h, SYNACK);
        AdjustHeldFrame(w.mem, t.verdict.held, t.verdict.isn, t.verdict.offset, x);
      }
    }
  }

  /** Packets that are not TCP over IPv4 pass untouched. */
  lemma {:induction false} PlainStep(w: World, v: World, i: nat)
    requires OutsideStep(w, v, i) && !w.mem[w.outside[i].id].tcp
    ensures v == w
  {}

  lemma {:induction false} OpenedOutside(w: World, v: World, i: nat, d: Data, cookie: bv32)
    requires Owned(w) && OutsideStep(w, v, i) && Opened(w.conns, w.mem, d, cookie) && d in v.conns
    requires var h := w.mem[w.outside[i].id]; !(h.tcp && Has(h, SYNACK) && KeyToOutside(h) == d)
    ensures Opened(v.conns, v.mem, d, cookie)
  {
    var id := w.outside[i].id;
    var h := w.mem[id];
    var first := w.conns[d].held[0];
    SlotsApart(w, id);
    OutsideTable(w, v, i);
    var e := KeyToOutside(h);
    if e in w.conns && e != d { HeldApart(w, d, e, first.id); }
    hide Owned, JudgeToOutside, StepToOutside, Plus, Has, KeyToOutside;
    if h.tcp {
      OpenedToOutside(w.conns, w.mem, h, d, cookie);
      OutsideWrites(w, v, i, first.id);
    } else {
      PlainStep(w, v, i);
    }
    assert |v.mem| == |w.mem|;
  }

  lemma {:induction false} AnsweredOutside(w: World, v: World, i: nat, d: Data, cookie: bv32)
    requires Owned(w) && OutsideStep(w, v, i) && Opened(w.conns, w.mem, d, cookie)
    requires var h := w.mem[w.outside[i].id]; h.tcp && Has(h, SYNACK) && KeyToOutside(h) == d
    ensures var isn := w.mem[w.outside[i].id].seqNum;
      Spliced(v.conns, d, cookie, isn) && Answered(w, v, d, isn)
  {
    var h := w.mem[w.outside[i].id];
    var held := w.conns[d].held;
    OpenedToOutside(w.conns, w.mem, h, d, cookie);
    FirstHeldOnce(w, d);
    ReleasedAreReal(w.conns, w.mem, h);
    hide Owned, JudgeToOutside, Plus, Minus, Has, KeyToOutside, AdjustRest;
    var offset := Minus(cookie, h.seqNum);
    AdjustRestFrame(w.mem[held[0].id := WithAck(w.mem[held[0].id], Plus(h.seqNum, 1))], held[1..], offset, held[0].id);
    assert SynAckStep(w, v, d, h.seqNum);
    forall x | 0 <= x < |w.mem| && Mbuf(x) in w.outside ensures v.mem[x] == w.mem[x] {
      SlotsApart(w, x);
      AdjustHeldFrame(w.mem, held, h.seqNum, offset, x);
    }
  }

  lemma {:induction false} LiveTwice(s: seq<Pointer>, i: nat, j: nat)
    requires i < j < |s| && s[i] == s[j] && s[i].Mbuf?
    ensures multiset(Live(s))[s[i].id] >= 2
  {
    LiveSplit(s, i);
    LiveMembers(s[i + 1..], s[i].id);
    assert s[i + 1..][j - i - 1] == s[j];
    hide Live;
    CountConcat(Live(s[..i]) + [s[i].id], Live(s[i + 1..]), s[i].id);
    CountConcat(Live(s[..i]), [s[i].id], s[i].id);
  }

  /** No connection holds a buffer twice. */
  lemma {:induction false} HeldOnce(w: World, d: Data, i: nat, j: nat)
    requires Owned(w) && d in w.conns && i < j < |w.conns[d].held| && w.conns[d].held[i].Mbuf?
    ensures w.conns[d].held[i] != w.conns[d].held[j]
  {
    var held := w.conns[d].held;
    if held[i] == held[j] {
      LiveTwice(held, i, j);
      HeldOne(w.conns, d);
      OnceAtMost(w, held[i].id);
      hide Live, HeldIds, Owned;
      assert false;
    }
  }

  lemma {:induction false} ReleasedMem(w: World, v: World, i: nat, d: Data)
    requires OutsideStep(w, v, i) && d in w.conns && |w.conns[d].held| > 0
    requires Full(w.conns[d].held) && InRange(w.conns[d].held, |w.mem|)
    requires var h := w.mem[w.outside[i].id]; h.tcp && Has(h, SYNACK) && KeyToOutside(h) == d
    ensures d in v.conns
    ensures v.mem == AdjustHeld(w.mem, w.conns[d].held, w.mem[w.outside[i].id].seqNum, v.conns[d].offset)
  {
    ReleasedAreReal(w.conns, w.mem, w.mem[w.outside[i].id]);
    hide Plus, Minus, Has, KeyToOutside, AdjustHeld, Live;
  }

  /** The packets held behind the first are adjusted by the new offset. They are
      forgotten all the same. */
  lemma {:induction false} RestAdjusted(w: World, v: World, i: nat, d: Data, k: nat)
    requires Owned(w) && OutsideStep(w, v, i) && d in w.conns && 0 < k < |w.conns[d].held|
    requires Full(w.conns[d].held) && InRange(w.conns[d].held, |w.mem|)
    requires var h := w.mem[w.outside[i].id]; h.tcp && Has(h, SYNACK) && KeyToOutside(h) == d
    ensures var id := w.conns[d].held[k].id;
      d in v.conns && |v.mem| == |w.mem|
      && v.mem[id] == WithAck(w.mem[id], Minus(w.mem[id].ackNum, v.conns[d].offset))
  {
    var held := w.conns[d].held;
    ReleasedMem(w, v, i, d);
    hide Minus, AdjustHeld, Has, KeyToOutside, StepToOutside;
    forall a, b | 0 <= a < b < |held| ensures held[a] != held[b] { HeldOnce(w, d, a, b); }
    hide Owned;
    AdjustHeldAt(w.mem, held, w.mem[w.outside[i].id].seqNum, v.conns[d].offset, k);
  }

  /** A SYN-ACK for a waiting connection always ends its wait. */
  lemma {:induction false} SynAckEndsWait(w: World, v: World, d: Data, cookie: bv32)
    requires Owned(w) && Opened(w.conns, w.mem, d, cookie) && AnySynAck(w, v, d)
    ensures !Opened(v.conns, v.mem, d, cookie)
  {
    hide Owned, Has, KeyToOutside, Plus, Minus, Answered, StepToOutside;
    var isn: bv32 :| SynAckStep(w, v, d, isn);
    var i: nat :| OutsideStep(w, v, i)
      && var h := w.mem[w.outside[i].id]; h.tcp && Has(h, SYNACK) && KeyToOutside(h) == d && h.seqNum == isn;
    AnsweredOutside(w, v, i, d, cookie);
  }

  /** A waiting connection goes on waiting exactly as long as no SYN-ACK comes from
      inside; the first one splices it. */
  lemma {:induction false} OpenedNext(w: World, v: World, hash: Hash, d: Data, cookie: bv32)
    requires Owned(w) && Opened(w.conns, w.mem, d, cookie) && Next(w, v, hash) && d in v.conns
    ensures if AnySynAck(w, v, d) then exists isn: bv32 :: Spliced(v.conns, d, cookie, isn) && Answered(w, v, d, isn)
      else Opened(v.conns, v.mem, d, cookie)
  {
    if AnySynAck(w, v, d) { SynAckEndsWait(w, v, d, cookie); }
    hide Owned, InsideStep, OutsideStep, Has, KeyToOutside, Plus, Minus, Spliced;
    if i: nat, now: bv8 :| InsideStep(w, v, hash, i, now) {
      OpenedInside(w, v, hash, i, now, d, cookie);
    } else if i: nat :| OutsideStep(w, v, i) {
      OutsideStepIsReal(w, v, i);
      var h := w.mem[w.outside[i].id];
      if h.tcp && Has(h, SYNACK) && KeyToOutside(h) == d {
        AnsweredOutside(w, v, i, d, cookie);
      } else {
        OpenedOutside(w, v, i, d, cookie);
      }
    }
  }

  lemma {:induction false} SplicedNext(w: World, v: World, hash: Hash, d: Data, cookie: bv32, isn: bv32)
    requires Spliced(w.conns, d, cookie, isn) && Next(w, v, hash) && d in v.conns
    ensures Spliced(v.conns, d, cookie, isn)
  {
    hide InsideStep, OutsideStep, Minus;
    if i: nat, now: bv8 :| InsideStep(w, v, hash, i, now) {
      StepIsReal(w, v, hash, i, now);
      InsideTable(w, v, hash, i, now);
      hide Spliced, JudgeToInside;
      SplicedToInside(w.conns, hash, now, w.inside[i].id, w.mem[w.inside[i].id], d, cookie, isn);
    } else if i: nat :| OutsideStep(w, v, i) {
      OutsideStepIsReal(w, v, i);
      OutsideTable(w, v, i);
      hide Spliced, JudgeToOutside;
      SplicedToOutside(w.conns, w.mem, w.mem[w.outside[i].id], d, cookie, isn);
    }
  }

  /** The connection waits in every state, and no step brings a SYN-ACK from inside. */
  ghost predicate Waits(ws: seq<World>, d: Data, cookie: bv32) {
    && (forall k :: 0 <= k < |ws| ==> Opened(ws[k].conns, ws[k].mem, d, cookie))
    && (forall k :: 0 <= k < |ws| - 1 ==> !AnySynAck(ws[k], ws[k + 1], d))
  }

  /** Up to state j the run waits and sees no SYN-ACK for the connection; the step after
      it treats the first one, with isn, and from then on the run stays spliced with
      that one isn. */
  ghost predicate SplicedSince(ws: seq<World>, d: Data, cookie: bv32, isn: bv32, j: int) {
    && 0 <= j < |ws| - 1
    && Waits(ws[..j + 1], d, cookie)
    && Answered(ws[j], ws[j + 1], d, isn)
    && (forall k :: j < k < |ws| ==> Spliced(ws[k].conns, d, cookie, isn))
  }

  lemma {:induction false} OneMoreSpliced(ws: seq<World>, hash: Hash, d: Data, cookie: bv32, isn: bv32, j: int)
    requires |ws| > 1 && SplicedSince(ws[..|ws| - 1], d, cookie, isn, j)
    requires Next(ws[|ws| - 2], ws[|ws| - 1], hash) && d in ws[|ws| - 1].conns
    ensures SplicedSince(ws, d, cookie, isn, j)
  {
    hide Next, Waits, Spliced, Answered;
    var n := |ws| - 1;
    assert forall k :: 0 <= k < n ==> ws[..n][k] == ws[k];
    assert ws[..n][..j + 1] == ws[..j + 1];
    SplicedNext(ws[n - 1], ws[n], hash, d, cookie, isn);
  }

  lemma {:induction false} OneMoreWaits(ws: seq<World>, front: seq<World>, d: Data, cookie: bv32)
    requires |ws| > 1 && front == ws[..|ws| - 1] && Waits(front, d, cookie)
    requires !AnySynAck(ws[|ws| - 2], ws[|ws| - 1], d)
    requires Opened(ws[|ws| - 1].conns, ws[|ws| - 1].mem, d, cookie)
    ensures Waits(ws, d, cookie)
  {
    hide Opened, AnySynAck;
    var n := |ws| - 1;
    assert forall k :: 0 <= k < n ==> front[k] == ws[k];
    forall k | 0 <= k < n ensures !AnySynAck(ws[k], ws[k + 1], d) {
      if k < n - 1 { assert !AnySynAck(front[k], front[k + 1], d); }
    }
  }

  lemma {:induction false} FrontWaits(ws: seq<World>, hash: Hash, d: Data, cookie: bv32)
    requires |ws| > 1 && Waits(ws[..|ws| - 1], d, cookie)
    requires Next(ws[|ws| - 2], ws[|ws| - 1], hash) && Owned(ws[|ws| - 2]) && d in ws[|ws| - 1].conns
    ensures Waits(ws, d, cookie) || exists isn: bv32, j :: SplicedSince(ws, d, cookie, isn, j)
  {
    hide Next, Opened, Spliced, Answered, AnySynAck, Owned;
    var n := |ws| - 1;
    var front := ws[..n];
    assert front[n - 1] == ws[n - 1];
    OpenedNext(ws[n - 1], ws[n], hash, d, cookie);
    if AnySynAck(ws[n - 1], ws[n], d) {
      var isn: bv32 :| Spliced(ws[n].conns, d, cookie, isn) && Answered(ws[n - 1], ws[n], d, isn);
      assert SplicedSince(ws, d, cookie, isn, n - 1);
    } else {
      OneMoreWaits(ws, front, d, cookie);
    }
  }

  /** Over any run that starts with an admitted connection and never loses its entry:
      it waits as long as no SYN-ACK comes from inside, and the first one, whatever
      its sequence number isn, fixes the offset at cookie - isn for good. */
  lemma {:induction false} SplicedRun(ws: seq<World>, hash: Hash, d: Data, cookie: bv32)
    requires IsRun(ws, hash) && Reachable(ws[0]) && Opened(ws[0].conns, ws[0].mem, d, cookie)
    requires forall k :: 0 <= k < |ws| ==> d in ws[k].conns
    ensures Waits(ws, d, cookie) || exists isn: bv32, j :: SplicedSince(ws, d, cookie, isn, j)
  {
    if |ws| <= 1 {
    } else {
      var n := |ws| - 1;
      var front := ws[..n];
      assert Next(ws[n - 1], ws[n - 1 + 1], hash);
      assert front[n - 1] == ws[n - 1];
      hide Next, Opened, Spliced, Answered, AnySynAck, Owned, AllClosing, NullOnlyFirst;
      SplicedRun(front, hash, d, cookie);
      RunReachable(ws, hash);
      if isn: bv32, j :| SplicedSince(front, d, cookie, isn, j) {
        OneMoreSpliced(ws, hash, d, cookie, isn, j);
      } else {
        FrontWaits(ws, hash, d, cookie);
      }
    }
  }

  // ----- Held packets, and which of them go on -----

  /** Some entry holds the buffer, but not as its first. */
  ghost predicate HeldBehind(conns: Table, x: nat) {
    exists d, k :: d in conns && 0 < k < |conns[d].held| && conns[d].held[k] == Mbuf(x)
  }

  /** The buffer is held behind another pointer, or has been forgotten. */
  ghost predicate Behind(w: World, x: nat) { x in w.lost || HeldBehind(w.conns, x) }

  lemma {:induction false} BehindToInside(conns: Table, hash: Hash, now: bv8, id: nat, h: Header, x: nat)
    requires HeldBehind(conns, x)
    ensures var t := JudgeToInside(conns, hash, now, id, h); x in t.lost || HeldBehind(t.conns, x)
  {
    var t := JudgeToInside(conns, hash, now, id, h);
    var d, k :| d in conns && 0 < k < |conns[d].held| && conns[d].held[k] == Mbuf(x);
    ToInsideProgress(conns, hash, now, id, h);
    ToInsideExactly(conns, hash, now, id, h);
    LostToInside(conns, hash, now, id, h);
    LiveMembers(conns[d].held, x);
    hide JudgeToInside, Live, Has, Check, Minus, KeyToInside, Leaves, Starts, Advances, Closes;
    if d in t.conns { assert t.conns[d].held[k] == Mbuf(x); }
  }

  lemma {:induction false} BehindToOutside(conns: Table, mem: seq<Header>, h: Header, x: nat)
    requires HeldInRange(conns, |mem|) && HeldBehind(conns, x)
    ensures var t := JudgeToOutside(conns, mem, h); x in t.lost || HeldBehind(t.conns, x)
  {
    var t := JudgeToOutside(conns, mem, h);
    var d, k :| d in conns && 0 < k < |conns[d].held| && conns[d].held[k] == Mbuf(x);
    ToOutsideProgress(conns, mem, h);
    ToOutsideExactly(conns, mem, h);
    LostToOutside(conns, mem, h);
    LiveMembers(conns[d].held, x);
    LiveMembers(conns[d].held[1..], x);
    assert conns[d].held[1..][k - 1] == Mbuf(x);
    hide JudgeToOutside, Live, Has, Minus, KeyToOutside, Leaves, Starts, Advances, Closes;
    if d in t.conns && t.conns[d].held == conns[d].held { assert t.conns[d].held[k] == Mbuf(x); }
  }

  lemma {:induction false} InsideLost(w: World, v: World, hash: Hash, i: nat, now: bv8)
    requires InsideStep(w, v, hash, i, now)
    ensures var id := w.inside[i].id;
      v.lost == w.lost + if w.mem[id].tcp then JudgeToInside(w.conns, hash, now, id, w.mem[id]).lost else []
  {
    hide JudgeToInside;
  }

  lemma {:induction false} OutsideLost(w: World, v: World, i: nat)
    requires OutsideStep(w, v, i)
    ensures var h := w.mem[w.outside[i].id];
      v.lost == w.lost + if h.tcp then JudgeToOutside(w.conns, w.mem, h).lost else []
  {
    ReleasedAreReal(w.conns, w.mem, w.mem[w.outside[i].id]);
    hide JudgeToOutside, AdjustHeld;
  }

  lemma {:induction false} BehindNext(w: World, v: World, hash: Hash, x: nat)
    requires Next(w, v, hash) && Behind(w, x)
    ensures Behind(v, x)
  {
    hide InsideStep, OutsideStep, HeldBehind;
    if i: nat, now: bv8 :| InsideStep(w, v, hash, i, now) {
      StepIsReal(w, v, hash, i, now);
      InsideTable(w, v, hash, i, now);
      InsideLost(w, v, hash, i, now);
      hide JudgeToInside;
      var id := w.inside[i].id;
      if x !in w.lost && w.mem[id].tcp { BehindToInside(w.conns, hash, now, id, w.mem[id], x); }
    } else if i: nat :| OutsideStep(w, v, i) {
      OutsideStepIsReal(w, v, i);
      OutsideTable(w, v, i);
      OutsideLost(w, v, i);
      hide JudgeToOutside;
      var h := w.mem[w.outside[i].id];
      if x !in w.lost && h.tcp { BehindToOutside(w.conns, w.mem, h, x); }
    }
  }

  /** A buffer that can still reach the NIC, or has. */
  ghost predicate GoesOn(w: World, x: nat) { Mbuf(x) in w.inside || Mbuf(x) in w.outside || x in w.sent }

  lemma {:induction false} HeldIsCounted(conns: Table, d: Data, x: nat)
    requires d in conns && Mbuf(x) in conns[d].held
    ensures HeldIds(conns)[x] >= 1
  {
    LiveMembers(conns[d].held, x);
    hide Live, HeldIds;
    HeldOne(conns, d);
  }

  lemma {:induction false} BehindStaysBehind(w: World, x: nat)
    requires Owned(w) && Behind(w, x)
    ensures !GoesOn(w, x) && x !in w.freed
  {
    LiveMembers(w.inside, x);
    LiveMembers(w.outside, x);
    if x !in w.lost {
      var d, k :| d in w.conns && 0 < k < |w.conns[d].held| && w.conns[d].held[k] == Mbuf(x);
      HeldIsCounted(w.conns, d, x);
    }
    hide Live, HeldIds, HeldBehind, Owned;
    assert Count(w, x) <= 1 by { OnceAtMost(w, x); }
  }

  ghost predicate EverGoesOn(ws: seq<World>, x: nat) { exists k :: 0 <= k < |ws| && GoesOn(ws[k], x) }

  lemma {:induction false} Suffix(ws: seq<World>, hash: Hash, k: nat)
    requires IsRun(ws, hash) && k < |ws|
    ensures IsRun(ws[k..], hash)
  {
    hide Next;
    forall j | 0 <= j < |ws| - k - 1 ensures Next(ws[k..][j], ws[k..][j + 1], hash) {
      assert Next(ws[k + j], ws[k + j + 1], hash);
    }
  }

  /** Over every run, past the entry's erasure too: a buffer behind the first held one is
      never sent, never freed, and in no slot again. */
  lemma {:induction false} QueuedForGood(ws: seq<World>, hash: Hash, x: nat)
    requires IsRun(ws, hash) && Reachable(ws[0]) && Behind(ws[0], x)
    ensures forall k :: 0 <= k < |ws| ==> Behind(ws[k], x) && !GoesOn(ws[k], x) && x !in ws[k].freed
  {
    hide Next, Behind, GoesOn;
    RunReachable(ws, hash);
    var k := 0;
    while k < |ws| - 1
      invariant k < |ws| && forall j :: 0 <= j <= k ==> Behind(ws[j], x)
    {
      assert Next(ws[k], ws[k + 1], hash);
      BehindNext(ws[k], ws[k + 1], hash, x);
      k := k + 1;
    }
    forall j | 0 <= j < |ws| ensures !GoesOn(ws[j], x) && x !in ws[j].freed {
      assert Reachable(ws[j]);
      BehindStaysBehind(ws[j], x);
    }
  }

  /** A plain ACK of a known connection is queued exactly when something is held for the
      connection and the ACK does not close it. */
  ghost predicate Queues(w: World, i: nat)
    requires Sane(w) && i < |w.inside| && w.inside[i].Mbuf?
  {
    var h := w.mem[w.inside[i].id];
    var d := KeyToInside(h);
    d in w.conns && w.conns[d].held != [] && !Closes(w.conns[d], w.conns[d].ackToInsideExpected, h)
  }

  lemma {:induction false} PlainAckStep(w: World, v: World, hash: Hash, i: nat, now: bv8)
    requires InsideStep(w, v, hash, i, now)
    requires var h := w.mem[w.inside[i].id]; h.tcp && PlainAck(h) && KeyToInside(h) in w.conns
    ensures var p := w.inside[i]; var h := w.mem[p.id]; var d := KeyToInside(h); var info := w.conns[d];
      if Queues(w, i) then
        v == w.(conns := w.conns[d := info.(held := info.held + [p])], inside := w.inside[i := Null])
      else v.inside == w.inside && v.mem == w.mem[p.id := WithAck(h, Minus(h.ackNum, info.offset))]
  {
    SynAckBits(w.mem[w.inside[i].id]);
    hide Has, Check, Live, Minus, Plus, KeyToInside;
  }

  /** Whether a plain ACK from outside, of a known connection, ever goes on is settled when
      it is treated, whatever follows: it does if and only if it is not queued. */
  lemma {:induction false} EarlyAckGoesOn(ws: seq<World>, hash: Hash, i: nat, now: bv8)
    requires IsRun(ws, hash) && |ws| > 1 && Reachable(ws[0]) && InsideStep(ws[0], ws[1], hash, i, now)
    requires var h := ws[0].mem[ws[0].inside[i].id]; h.tcp && PlainAck(h) && KeyToInside(h) in ws[0].conns
    ensures EverGoesOn(ws[1..], ws[0].inside[i].id) <==> !Queues(ws[0], i)
  {
    var w, v := ws[0], ws[1];
    var x := w.inside[i].id;
    PlainAckStep(w, v, hash, i, now);
    Suffix(ws, hash, 1);
    assert Next(w, ws[0 + 1], hash);
    NextReachable(w, v, hash);
    if Queues(w, i) {
      assert v.conns[KeyToInside(w.mem[x])].held[|w.conns[KeyToInside(w.mem[x])].held|] == Mbuf(x);
      assert Behind(v, x);
      QueuedForGood(ws[1..], hash, x);
    } else {
      assert v.inside[i] == Mbuf(x);
      assert GoesOn(ws[1..][0], x);
    }
  }

  /** For an entry whose first held pointer is null that means every plain ACK from outside
      short of one that closes the connection. */
  lemma {:induction false} NullHeadedQueues(w: World, v: World, hash: Hash, i: nat, now: bv8)
    requires InsideStep(w, v, hash, i, now)
    requires var h := w.mem[w.inside[i].id]; var d := KeyToInside(h);
      h.tcp && PlainAck(h) && NullHeaded(w.conns, d) && !Closes(w.conns[d], w.conns[d].ackToInsideExpected, h)
    ensures var d := KeyToInside(w.mem[w.inside[i].id]); var info := w.conns[d];
      v == w.(conns := w.conns[d := info.(held := info.held + [w.inside[i]])], inside := w.inside[i := Null])
    ensures Behind(v, w.inside[i].id)
  {
    PlainAckStep(w, v, hash, i, now);
    hide Has, Closes, PlainAck, KeyToInside, StepToInside;
    var d := KeyToInside(w.mem[w.inside[i].id]);
    assert v.conns[d].held[|w.conns[d].held|] == w.inside[i];
  }

  /** The buffer is the first that the connection holds. */
  ghost predicate HeldFirst(w: World, d: Data, x: nat) {
    d in w.conns && w.conns[d].held != [] && w.conns[d].held[0] == Mbuf(x)
  }

  lemma {:induction false} HeadToInside(w: World, v: World, hash: Hash, i: nat, now: bv8, d: Data, x: nat)
    requires HeldFirst(w, d, x) && InsideStep(w, v, hash, i, now)
    ensures if d in v.conns then HeldFirst(v, d, x) else x in v.lost
  {
    var id := w.inside[i].id;
    InsideTable(w, v, hash, i, now);
    InsideLost(w, v, hash, i, now);
    LiveMembers(w.conns[d].held, x);
    hide JudgeToInside, StepToInside, Live, Has, Check, Minus, KeyToInside, Leaves, Starts, Advances, Closes;
    if w.mem[id].tcp {
      ToInsideProgress(w.conns, hash, now, id, w.mem[id]);
      ToInsideExactly(w.conns, hash, now, id, w.mem[id]);
      LostToInside(w.conns, hash, now, id, w.mem[id]);
    }
  }

  lemma {:induction false} HeadToOutside(w: World, v: World, i: nat, d: Data, x: nat)
    requires HeldFirst(w, d, x) && OutsideStep(w, v, i)
    requires var h := w.mem[w.outside[i].id]; !(h.tcp && Has(h, SYNACK) && KeyToOutside(h) == d)
    ensures if d in v.conns then HeldFirst(v, d, x) else x in v.lost
  {
    var h := w.mem[w.outside[i].id];
    OutsideTable(w, v, i);
    OutsideLost(w, v, i);
    LiveMembers(w.conns[d].held, x);
    hide JudgeToOutside, StepToOutside, Live, Has, Minus, KeyToOutside, Leaves, Starts, Advances, Closes;
    if h.tcp {
      ToOutsideProgress(w.conns, w.mem, h);
      ToOutsideExactly(w.conns, w.mem, h);
      LostToOutside(w.conns, w.mem, h);
    }
  }

  lemma {:induction false} HeadReleased(w: World, v: World, i: nat, d: Data, x: nat)
    requires Reachable(w) && HeldFirst(w, d, x) && OutsideStep(w, v, i)
    requires var h := w.mem[w.outside[i].id]; h.tcp && Has(h, SYNACK) && KeyToOutside(h) == d
    ensures Mbuf(x) in v.inside
  {
    assert Null !in w.conns[d].held;
    hide Owned, AllClosing, NullOnlyFirst, Has, Live, Minus, Plus, KeyToOutside, AdjustHeld;
    ReleasedAreReal(w.conns, w.mem, w.mem[w.outside[i].id]);
  }

  lemma {:induction false} SynAckReleases(w: World, v: World, d: Data, x: nat)
    requires Reachable(w) && HeldFirst(w, d, x) && AnySynAck(w, v, d)
    ensures GoesOn(v, x)
  {
    hide StepToOutside, Has, KeyToOutside, Reachable, HeldFirst;
    var isn: bv32 :| SynAckStep(w, v, d, isn);
    var i: nat :| OutsideStep(w, v, i)
      && var h := w.mem[w.outside[i].id]; h.tcp && Has(h, SYNACK) && KeyToOutside(h) == d && h.seqNum == isn;
    HeadReleased(w, v, i, d, x);
  }

  /** The first held buffer stays first, is forgotten with its entry, or goes on at the
      SYN-ACK from inside. */
  lemma {:induction false} HeadNext(w: World, v: World, hash: Hash, d: Data, x: nat)
    requires Reachable(w) && HeldFirst(w, d, x) && Next(w, v, hash)
    ensures if AnySynAck(w, v, d) then GoesOn(v, x)
      else if d in v.conns then HeldFirst(v, d, x) else x in v.lost
  {
    if AnySynAck(w, v, d) { SynAckReleases(w, v, d, x); }
    hide Reachable, InsideStep, OutsideStep, Has, KeyToOutside;
    if i: nat, now: bv8 :| InsideStep(w, v, hash, i, now) {
      HeadToInside(w, v, hash, i, now, d, x);
    } else if i: nat :| OutsideStep(w, v, i) {
      var h := w.mem[w.outside[i].id];
      if h.tcp && Has(h, SYNACK) && KeyToOutside(h) == d {
        assert SynAckStep(w, v, d, h.seqNum);
      } else {
        HeadToOutside(w, v, i, d, x);
      }
    }
  }

  /** Step j treats a SYN-ACK from inside for the entry that has been there since the start. */
  ghost predicate AnsweredAt(ws: seq<World>, j: int, d: Data) {
    0 <= j < |ws| - 1 && (forall k :: 0 <= k <= j ==> d in ws[k].conns) && AnySynAck(ws[j], ws[j + 1], d)
  }

  lemma {:induction false} AnsweredLater(ws: seq<World>, d: Data)
    requires |ws| > 1 && d in ws[0].conns && !AnySynAck(ws[0], ws[1], d)
    ensures (exists j :: AnsweredAt(ws, j, d)) <==> (exists j :: AnsweredAt(ws[1..], j, d))
  {
    hide AnySynAck;
    forall j | AnsweredAt(ws, j, d) ensures AnsweredAt(ws[1..], j - 1, d) {
      assert j != 0 && ws[1..][j - 1] == ws[j] && ws[1..][j - 1 + 1] == ws[j + 1];
    }
    forall j | AnsweredAt(ws[1..], j, d) ensures AnsweredAt(ws, j + 1, d) {
      assert ws[1..][j] == ws[j + 1] && ws[1..][j + 1] == ws[j + 1 + 1];
      forall k | 0 <= k <= j + 1 ensures d in ws[k].conns {
        if k > 0 { assert ws[1..][k - 1] == ws[k]; }
      }
    }
  }

  lemma {:induction false} GoesOnLater(ws: seq<World>, x: nat)
    requires |ws| > 1
    ensures EverGoesOn(ws, x) <==> GoesOn(ws[0], x) || EverGoesOn(ws[1..], x)
  {
    hide GoesOn;
    if k :| 0 <= k < |ws| && GoesOn(ws[k], x) {
      if k > 0 { assert ws[1..][k - 1] == ws[k]; }
    }
    if k :| 0 <= k < |ws[1..]| && GoesOn(ws[1..][k], x) { assert ws[1..][k] == ws[k + 1]; }
  }

  lemma {:induction false} HeadGoesOn(ws: seq<World>, hash: Hash, d: Data, x: nat)
    requires IsRun(ws, hash) && Reachable(ws[0]) && HeldFirst(ws[0], d, x)
    ensures EverGoesOn(ws, x) <==> exists j :: AnsweredAt(ws, j, d)
  {
    HeldIsNowhereElse(ws[0], d, x);
    assert !GoesOn(ws[0], x);
    if |ws| == 1 {
    } else {
      assert Next(ws[0], ws[0 + 1], hash);
      hide Next, Reachable, GoesOn, HeldFirst, AnySynAck, IsRun;
      HeadNext(ws[0], ws[1], hash, d, x);
      NextReachable(ws[0], ws[1], hash);
      GoesOnLater(ws, x);
      Suffix(ws, hash, 1);
      if AnySynAck(ws[0], ws[1], d) {
        assert AnsweredAt(ws, 0, d);
      } else {
        AnsweredLater(ws, d);
        if d in ws[1].conns {
          HeadGoesOn(ws[1..], hash, d, x);
        } else {
          QueuedForGood(ws[1..], hash, x);
        }
      }
    }
  }

  /** Whether a held packet ever goes on, over every run: exactly when it is the first one
      of its connection and a SYN-ACK comes from inside before the entry is erased. */
  lemma {:induction false} HeldGoesOn(ws: seq<World>, hash: Hash, d: Data, k: nat, x: nat)
    requires IsRun(ws, hash) && Reachable(ws[0])
    requires d in ws[0].conns && k < |ws[0].conns[d].held| && ws[0].conns[d].held[k] == Mbuf(x)
    ensures EverGoesOn(ws, x) <==> k == 0 && exists j :: AnsweredAt(ws, j, d)
  {
    hide IsRun, Reachable, GoesOn, AnsweredAt;
    if k == 0 {
      HeadGoesOn(ws, hash, d, x);
    } else {
      QueuedForGood(ws, hash, x);
    }
  }

  lemma {:induction false} MinusOnePlusOne(a: bv32)
    ensures Plus(Minus(a, 1), 1) == a
  {
    assert a - 1 + 1 == a;
    assert Plus(a - 1, 1) == a;
  }

  lemma {:induction false} AdmitStep(
    w: World, v: World, hash: Hash, i: nat, now: bv8, conns: Table, r: Header)
    requires InsideStep(w, v, hash, i, now) && w.mem[w.inside[i].id].tcp
    requires JudgeToInside(w.conns, hash, now, w.inside[i].id, w.mem[w.inside[i].id]) == Treated(conns, Admit(r), [])
    ensures v == w.(conns := conns, mem := w.mem + [r], inside := w.inside[i := Null] + [Mbuf(|w.mem|)])
  {
    hide JudgeToInside;
    assert (w.inside + [Mbuf(|w.mem|)])[i := Null] == w.inside[i := Null] + [Mbuf(|w.mem|)];
  }

  lemma {:induction false} ResetStep(
    w: World, v: World, hash: Hash, i: nat, now: bv8, conns: Table, r: Header)
    requires InsideStep(w, v, hash, i, now) && w.mem[w.inside[i].id].tcp
    requires JudgeToInside(w.conns, hash, now, w.inside[i].id, w.mem[w.inside[i].id]) == Treated(conns, Reset(r), [])
    ensures v == w.(conns := conns, mem := w.mem + [r], inside := w.inside[i := Null] + [Mbuf(|w.mem|)],
                    freed := w.freed + [w.inside[i].id])
  {
    hide JudgeToInside;
    assert (w.inside + [Mbuf(|w.mem|)])[i := Null] == w.inside[i := Null] + [Mbuf(|w.mem|)];
  }

  /** What becomes of a plain ACK from outside for a connection without entry. With a cookie
      it is held and a SYN follows the packets to the inside; without one it is freed and a
      RST does. Nothing goes to the outside. */
  lemma {:induction false} AckOfUnknown(w: World, v: World, hash: Hash, i: nat, now: bv8)
    requires InsideStep(w, v, hash, i, now)
    requires var h := w.mem[w.inside[i].id]; h.tcp && PlainAck(h) && KeyToInside(h) !in w.conns
    ensures var id := w.inside[i].id; var h := w.mem[id]; var d := KeyToInside(h);
      var shown := ShowsCookie(hash, now, h);
      v == w.(conns := if shown then w.conns[d := Entry(Mbuf(id))] else w.conns,
              mem := w.mem + [if shown then AdmittedSyn(h) else CookieRst(h)],
              inside := w.inside[i := Null] + [Mbuf(|w.mem|)],
              freed := if shown then w.freed else w.freed + [id])
  {
    var id := w.inside[i].id;
    var h := w.mem[id];
    OnlyCookiesAdmit(w.conns, hash, now, id, h);
    var t := JudgeToInside(w.conns, hash, now, id, h);
    hide Has, ShowsCookie, PlainAck, KeyToInside, JudgeToInside, StepToInside, Entry, AdmittedSyn, CookieRst;
    if t.verdict.Admit? { AdmitStep(w, v, hash, i, now, t.conns, t.verdict.h); }
    if t.verdict.Reset? { ResetStep(w, v, hash, i, now, t.conns, t.verdict.h); }
  }

  /** A right cookie opens the connection that the run theorem starts from. */
  lemma {:induction false} AdmissionOpens(w: World, v: World, hash: Hash, i: nat, now: bv8)
    requires InsideStep(w, v, hash, i, now)
    requires var h := w.mem[w.inside[i].id];
      h.tcp && Has(h, ACK) && !Has(h, SYN) && !Has(h, RST) && !Has(h, FIN)
      && KeyToInside(h) !in w.conns && Check(hash, now, Minus(h.ackNum, 1), KeyToInside(h))
    ensures var h := w.mem[w.inside[i].id]; Opened(v.conns, v.mem, KeyToInside(h), Minus(h.ackNum, 1))
  {
    var h := w.mem[w.inside[i].id];
    SynAckBits(h);
    MinusOnePlusOne(h.ackNum);
    hide Has, Check, Minus, Plus, KeyToInside, CookieReply, CookieRst, FinToInside;
  }

  /** In a spliced state the buffer itself is rewritten, in its slot: inward from
      cookie + k to isn + k. */
  lemma {:induction false} InwardInMemory(
    w: World, v: World, hash: Hash, i: nat, now: bv8, d: Data, cookie: bv32, isn: bv32, k: bv32)
    requires InsideStep(w, v, hash, i, now) && Spliced(w.conns, d, cookie, isn)
    requires var h := w.mem[w.inside[i].id];
      h.tcp && Has(h, ACK) && !Has(h, SYN) && !Has(h, RST) && !Has(h, FIN)
      && KeyToInside(h) == d && h.ackNum == Plus(cookie, k)
    ensures v.inside == w.inside && v.outside == w.outside
    ensures var id := w.inside[i].id; v.mem == w.mem[id := WithAck(w.mem[id], Plus(isn, k))]
  {
    SplicedTranslates(w.conns, w.mem, hash, now, w.inside[i].id, w.mem[w.inside[i].id], d, cookie, isn, k);
    hide JudgeToInside, Has, Minus, Plus, KeyToInside, Spliced;
  }

  /** And outward from isn + k to cookie + k. */
  lemma {:induction false} OutwardInMemory(
    w: World, v: World, hash: Hash, i: nat, d: Data, cookie: bv32, isn: bv32, k: bv32)
    requires OutsideStep(w, v, i) && Spliced(w.conns, d, cookie, isn)
    requires var h := w.mem[w.outside[i].id];
      h.tcp && Has(h, ACK) && !Has(h, SYN) && !Has(h, RST) && !Has(h, FIN)
      && KeyToOutside(h) == d && h.seqNum == Plus(isn, k)
    ensures v.inside == w.inside && v.outside == w.outside
    ensures var id := w.outside[i].id; v.mem == w.mem[id := WithSeq(w.mem[id], Plus(cookie, k))]
  {
    SplicedTranslates(w.conns, w.mem, hash, 0, w.outside[i].id, w.mem[w.outside[i].id], d, cookie, isn, k);
    hide JudgeToOutside, Has, Minus, Plus, KeyToOutside, Spliced;
  }

  // ----- SYN bursts -----

  /** Slots i to n hold SYNs without ACK. */
  ghost predicate SynBurst(w: World, i: nat, n: nat)
    requires Sane(w) && i <= n <= |w.inside|
  {
    forall k :: i <= k < n ==>
      w.inside[k].Mbuf? && var h := w.mem[w.inside[k].id]; h.tcp && Has(h, SYN) && !Has(h, ACK)
  }

  /** Each slot of the burst is empty, each packet freed in order, the others stay, and
      as many new buffers wait in the outside container. */
  ghost predicate BurstSlots(w: World, v: World, i: nat, n: nat)
    requires i <= n <= |w.inside|
  {
    && v.conns == w.conns && v.lost == w.lost && v.sent == w.sent && v.abandoned == w.abandoned
    && v.freed == w.freed + Live(w.inside[i..n])
    && |v.inside| == |w.inside|
    && (forall k :: 0 <= k < |w.inside| ==> v.inside[k] == if i <= k < n then Null else w.inside[k])
    && v.outside == w.outside + Fresh(|w.mem|, n - i)
  }

  /** The new buffers hold the answers, one per packet and in order. */
  ghost predicate BurstReplies(w: World, v: World, hash: Hash, clock: nat -> bv8, i: nat, n: nat)
    requires Sane(w) && i <= n <= |w.inside|
  {
    && |v.mem| == |w.mem| + n - i
    && (forall x :: 0 <= x < |w.mem| ==> v.mem[x] == w.mem[x])
    && (forall k :: i <= k < n && w.inside[k].Mbuf? ==>
          v.mem[|w.mem| + k - i] == CookieReply(hash, clock(k), w.mem[w.inside[k].id]))
  }

  ghost predicate AfterSyn(w: World, u: World, reply: Header, i: nat)
    requires i < |w.inside| && w.inside[i].Mbuf?
  {
    u == w.(mem := w.mem + [reply], outside := w.outside + [Mbuf(|w.mem|)],
            inside := w.inside[i := Null], freed := w.freed + [w.inside[i].id])
  }

  lemma {:induction false} BurstContinues(w: World, u: World, hash: Hash, clock: nat -> bv8, i: nat, n: nat)
    requires Sane(w) && Sane(u) && i < n <= |w.inside| && SynBurst(w, i, n) && w.inside[i].Mbuf?
    requires AfterSyn(w, u, CookieReply(hash, clock(i), w.mem[w.inside[i].id]), i)
    ensures SynBurst(u, i + 1, n)
  {
    hide CookieReply, Has;
  }

  lemma {:induction false} FirstSlots(w: World, u: World, v: World, i: nat, n: nat)
    requires i < n <= |w.inside| && w.inside[i].Mbuf? && (exists reply :: AfterSyn(w, u, reply, i))
    requires BurstSlots(u, v, i + 1, n)
    ensures BurstSlots(w, v, i, n)
  {
    LiveStep(w.inside[i..n]);
    assert w.inside[i..n][1..] == u.inside[i + 1..n];
    hide Live;
    assert [Mbuf(|w.mem|)] + Fresh(|w.mem| + 1, n - i - 1) == Fresh(|w.mem|, n - i);
  }

  lemma {:induction false} FirstReply(w: World, u: World, v: World, hash: Hash, clock: nat -> bv8, i: nat, n: nat)
    requires Sane(w) && Sane(u) && i < n <= |w.inside| && w.inside[i].Mbuf?
    requires AfterSyn(w, u, CookieReply(hash, clock(i), w.mem[w.inside[i].id]), i)
    requires BurstReplies(u, v, hash, clock, i + 1, n)
    ensures BurstReplies(w, v, hash, clock, i, n)
  {
    hide CookieReply;
    assert u.mem[|w.mem|] == v.mem[|w.mem|];
    forall k | i <= k < n && w.inside[k].Mbuf?
      ensures v.mem[|w.mem| + k - i] == CookieReply(hash, clock(k), w.mem[w.inside[k].id])
    {
      if k > i { assert v.mem[|u.mem| + k - (i + 1)] == CookieReply(hash, clock(k), u.mem[u.inside[k].id]); }
    }
  }

  lemma {:induction false} OneSyn(w: World, hash: Hash, now: bv8, i: nat)
    requires Sane(w) && i < |w.inside| && w.inside[i].Mbuf?
    requires var h := w.mem[w.inside[i].id]; h.tcp && Has(h, SYN) && !Has(h, ACK)
    ensures AfterSyn(w, StepToInside(w, hash, now, i), CookieReply(hash, now, w.mem[w.inside[i].id]), i)
  {
    SynIsStateless(w.conns, hash, now, w.inside[i].id, w.mem[w.inside[i].id]);
    hide JudgeToInside, CookieReply, Has;
  }

  /** Any burst of SYNs leaves the table as it was, frees each packet, and puts one
      SYN-ACK per packet, in order, behind what the outside container already holds. */
  lemma {:induction false} SynBurstIsStateless(w: World, hash: Hash, clock: nat -> bv8, i: nat, n: nat)
    requires Sane(w) && i <= n <= |w.inside| && Full(w.inside[i..n]) && SynBurst(w, i, n)
    ensures var v := TreatToInside(w, hash, clock, i, n);
      BurstSlots(w, v, i, n) && BurstReplies(w, v, hash, clock, i, n)
    decreases n - i
  {
    if i == n {
      NoneToInside(w, hash, clock, n);
    } else {
      FirstToInside(w, hash, clock, i, n);
      var u := StepToInside(w, hash, clock(i), i);
      OneSyn(w, hash, clock(i), i);
      hide StepToInside, TreatToInside, BurstSlots, BurstReplies;
      BurstContinues(w, u, hash, clock, i, n);
      hide SynBurst, Sane;
      SynBurstIsStateless(u, hash, clock, i + 1, n);
      var v := TreatToInside(u, hash, clock, i + 1, n);
      FirstSlots(w, u, v, i, n);
      FirstReply(w, u, v, hash, clock, i, n);
    }
  }
}
