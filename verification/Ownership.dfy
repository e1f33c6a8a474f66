/** Where every buffer is. Each one the NIC delivered or the pool allocated is in exactly
    one place: a slot of a container, a connection's held list, given to the NIC, freed,
    forgotten with an entry, or overwritten by a poll. */
module Ownership {
  import opened ConnectionHash
  import opened Cookie
  import opened Mbufs
  import opened Connections
  import opened Treatment
  import opened PacketContainer

  // ----- The held lists of all connections -----

  ghost function HeldIds(conns: Table): multiset<nat> {
    if conns.Keys == {} then multiset{}
    else
      var d :| d in conns;
      multiset(Live(conns[d].held)) + HeldIds(conns - {d})
  }

  lemma {:induction false} HeldSome(conns: Table) returns (e: Data)
    requires conns.Keys != {}
    ensures e in conns && HeldIds(conns) == multiset(Live(conns[e].held)) + HeldIds(conns - {e})
  {
    e :| e in conns && HeldIds(conns) == multiset(Live(conns[e].held)) + HeldIds(conns - {e});
  }

  /** Any entry may be counted first. */
  lemma {:induction false} HeldOne(conns: Table, d: Data)
    requires d in conns
    ensures HeldIds(conns) == multiset(Live(conns[d].held)) + HeldIds(conns - {d})
    decreases |conns|
  {
    hide HeldIds, Live;
    var e := HeldSome(conns);
    if e != d {
      HeldOne(conns - {e}, d);
      HeldOne(conns - {d}, e);
      assert conns - {e} - {d} == conns - {d} - {e};
    }
  }

  lemma {:induction false} HeldUpdate(conns: Table, d: Data, info: Info)
    ensures HeldIds(conns[d := info]) == multiset(Live(info.held)) + HeldIds(conns - {d})
  {
    HeldOne(conns[d := info], d);
    assert conns[d := info] - {d} == conns - {d};
  }

  lemma {:induction false} HeldAbsent(conns: Table, d: Data)
    requires d !in conns
    ensures conns - {d} == conns
  {}

  // ----- Exactly one place -----

  ghost function In(s: seq<nat>, id: nat): nat { multiset(s)[id] }
  ghost function At(s: seq<Pointer>, id: nat): nat { multiset(Live(s))[id] }
  ghost function HeldBy(conns: Table, id: nat): nat { HeldIds(conns)[id] }

  /** How often a buffer occurs in all places together. */
  ghost function Count(w: World, id: nat): nat {
    At(w.inside, id) + At(w.outside, id) + HeldBy(w.conns, id)
    + In(w.sent, id) + In(w.freed, id) + In(w.lost, id) + In(w.abandoned, id)
  }

  ghost predicate Owned(w: World) {
    forall id: nat :: Count(w, id) == if id < |w.mem| then 1 else 0
  }

  lemma {:induction false} OnceAtMost(w: World, id: nat)
    requires Owned(w)
    ensures Count(w, id) <= 1
  {
    hide Count;
  }

  lemma {:induction false} Present(w: World, s: seq<Pointer>, id: nat, place: multiset<nat>)
    requires Owned(w) && Mbuf(id) in s && multiset(Live(s)) <= place
    requires place == multiset(Live(w.inside)) || place == multiset(Live(w.outside)) || place == HeldIds(w.conns)
    ensures id < |w.mem|
  {
    LiveMembers(s, id);
    hide Live, HeldIds;
    assert id in multiset(Live(s)) && place[id] > 0;
    assert Count(w, id) > 0;
  }

  lemma {:induction false} OwnedIsSane(w: World)
    requires Owned(w)
    ensures Sane(w)
  {
    hide Live, HeldIds, Owned, Count;
    forall k | 0 <= k < |w.inside| && w.inside[k].Mbuf? ensures w.inside[k].id < |w.mem| {
      Present(w, w.inside, w.inside[k].id, multiset(Live(w.inside)));
    }
    forall k | 0 <= k < |w.outside| && w.outside[k].Mbuf? ensures w.outside[k].id < |w.mem| {
      Present(w, w.outside, w.outside[k].id, multiset(Live(w.outside)));
    }
    forall d | d in w.conns ensures InRange(w.conns[d].held, |w.mem|) {
      HeldOne(w.conns, d);
      forall k | 0 <= k < |w.conns[d].held| && w.conns[d].held[k].Mbuf? ensures w.conns[d].held[k].id < |w.mem| {
        Present(w, w.conns[d].held, w.conns[d].held[k].id, HeldIds(w.conns));
      }
    }
  }

  // ----- The table's part of a step -----

  function Tally(id: nat, x: nat): int { if id == x then 1 else 0 }

  /** What the table gains and loses for one packet. */
  ghost predicate Balanced(before: Table, t: Treated, gained: int, x: nat) {
    HeldBy(t.conns, x) + In(t.lost, x) == HeldBy(before, x) + gained
  }

  lemma {:induction false} EraseBalanced(conns: Table, d: Data, v: Verdict, x: nat)
    ensures Balanced(conns, Erase(conns, d, v), 0, x)
  {
    hide Live, HeldIds;
    if d in conns { HeldOne(conns, d); } else { HeldAbsent(conns, d); }
  }

  lemma {:induction false} FlagsBalanced(conns: Table, d: Data, info: Info, v: Verdict, x: nat)
    requires d in conns && info.held == conns[d].held
    ensures Balanced(conns, Update(conns, d, info, v), 0, x)
  {
    hide Live, HeldIds;
    HeldOne(conns, d);
    HeldUpdate(conns, d, info);
  }

  lemma {:induction false} LiveOne(p: Pointer)
    ensures Live([p]) == if p.Mbuf? then [p.id] else []
  {
    assert [p][1..] == [];
  }

  lemma {:induction false} EntryBalanced(conns: Table, d: Data, p: Pointer, v: Verdict, x: nat)
    requires d !in conns
    ensures Balanced(conns, Update(conns, d, Entry(p), v), if p.Mbuf? then Tally(p.id, x) else 0, x)
  {
    LiveOne(p);
    hide Live, HeldIds;
    HeldAbsent(conns, d);
    HeldUpdate(conns, d, Entry(p));
  }

  lemma {:induction false} QueueBalanced(conns: Table, d: Data, id: nat, x: nat)
    requires d in conns
    ensures Balanced(conns, Update(conns, d, conns[d].(held := conns[d].held + [Mbuf(id)]), Queue), Tally(id, x), x)
  {
    LiveOne(Mbuf(id));
    LiveConcat(conns[d].held, [Mbuf(id)]);
    hide Live, HeldIds;
    HeldOne(conns, d);
    HeldUpdate(conns, d, conns[d].(held := conns[d].held + [Mbuf(id)]));
  }

  lemma {:induction false} ReleaseBalanced(conns: Table, d: Data, info: Info, v: Verdict, x: nat)
    requires d in conns && info.held == [] && conns[d].held != [] && conns[d].held[0].Mbuf?
    ensures Balanced(conns, Treated(conns[d := info], v, Live(conns[d].held[1..])), -Tally(conns[d].held[0].id, x), x)
  {
    var held := conns[d].held;
    LiveStep(held);
    hide HeldIds;
    HeldOne(conns, d);
    HeldUpdate(conns, d, info);
  }

  lemma {:induction false} UnchangedBalanced(conns: Table, x: nat)
    ensures forall v :: Balanced(conns, Unchanged(conns, v), 0, x)
  {}

  lemma {:induction false} ToInsideBalanced(conns: Table, hash: Hash, now: bv8, id: nat, h: Header, x: nat)
    ensures var t := JudgeToInside(conns, hash, now, id, h);
      Balanced(conns, t, if t.verdict.Admit? || t.verdict.Queue? then Tally(id, x) else 0, x)
  {
    var d := KeyToInside(h);
    hide Has, Check, Minus, Plus, Live, HeldIds, Balanced, CookieReply, KeyToInside;
    UnchangedBalanced(conns, x);
    if d !in conns {
      EntryBalanced(conns, d, Null, Keep, x);
      EntryBalanced(conns, d, Mbuf(id), Admit(AdmittedSyn(h)), x);
    } else {
      QueueBalanced(conns, d, id, x);
      var closing := conns[d].(finSeenToInside := true, ackToOutsideExpected := true);
      FlagsBalanced(conns, d, closing, AckInward(conns[d], h), x);
      FlagsBalanced(conns, d, conns[d].(finSeenToInside := true), AckInward(conns[d], h), x);
      EraseBalanced(conns, d, AckInward(conns[d], h), x);
    }
    EraseBalanced(conns, d, Keep, x);
  }

  lemma {:induction false} ToOutsideBalanced(conns: Table, mem: seq<Header>, h: Header, x: nat)
    requires HeldInRange(conns, |mem|)
    ensures var t := JudgeToOutside(conns, mem, h);
      ReleasedReal(t, |mem|)
      && Balanced(conns, t, if t.verdict.Release? then -Tally(t.verdict.held[0].id, x) else 0, x)
  {
    var d := KeyToOutside(h);
    ReleasedAreReal(conns, mem, h);
    hide Has, Minus, Plus, Live, HeldIds, Balanced, KeyToOutside;
    UnchangedBalanced(conns, x);
    if d !in conns {
      EntryBalanced(conns, d, Null, Keep, x);
    } else {
      var info := conns[d];
      FlagsBalanced(conns, d, info.(finSeenToOutside := true, ackToInsideExpected := true), SeqOutward(info, h), x);
      FlagsBalanced(conns, d, info.(finSeenToOutside := true), SeqOutward(info, h), x);
      EraseBalanced(conns, d, SeqOutward(info, h), x);
      if info.held != [] && Null !in info.held {
        var offset := Minus(Minus(mem[info.held[0].id].ackNum, h.seqNum), 1);
        ReleaseBalanced(conns, d, info.(offset := offset, held := []), Release(info.held, h.seqNum, offset), x);
      }
    }
  }

  // ----- The containers' part of a step -----

  lemma {:induction false} CountAppend(s: seq<nat>, id: nat, x: nat)
    ensures In(s + [id], x) == In(s, x) + Tally(id, x)
  {
    assert multiset(s + [id]) == multiset(s) + multiset{id};
  }

  lemma {:induction false} CountConcat(s: seq<nat>, t: seq<nat>, x: nat)
    ensures In(s + t, x) == In(s, x) + In(t, x)
  {}

  lemma {:induction false} SlotAdded(s: seq<Pointer>, id: nat, x: nat)
    ensures At(s + [Mbuf(id)], x) == At(s, x) + Tally(id, x)
  {
    LiveConcat(s, [Mbuf(id)]);
    LiveOne(Mbuf(id));
    CountAppend(Live(s), id, x);
  }

  lemma {:induction false} SlotCleared(s: seq<Pointer>, i: nat, x: nat)
    requires i < |s| && s[i].Mbuf?
    ensures At(s[i := Null], x) == At(s, x) - Tally(s[i].id, x)
  {
    LiveWithout(s, i);
  }

  predicate Allocates(v: Verdict) { v.Reply? || v.Admit? || v.Reset? }

  lemma {:induction false} ApplyToInsideCounts(w: World, i: nat, t: Treated, x: nat)
    requires i < |w.inside| && w.inside[i].Mbuf? && w.inside[i].id < |w.mem|
    requires Balanced(w.conns, t, if t.verdict.Admit? || t.verdict.Queue? then Tally(w.inside[i].id, x) else 0, x)
    ensures var v := ApplyToInside(w, i, t);
      Count(v, x) == Count(w, x) + (if Allocates(t.verdict) then Tally(|w.mem|, x) else 0)
      && |v.mem| == |w.mem| + if Allocates(t.verdict) then 1 else 0
  {
    hide In, At, HeldBy;
    var id := w.inside[i].id;
    CountConcat(w.lost, t.lost, x);
    CountAppend(w.freed, id, x);
    SlotCleared(w.inside, i, x);
    SlotAdded(w.outside, |w.mem|, x);
    SlotAdded(w.inside, |w.mem|, x);
    SlotCleared(w.inside + [Mbuf(|w.mem|)], i, x);
  }

  lemma {:induction false} ApplyToOutsideCounts(w: World, i: nat, t: Treated, x: nat)
    requires i < |w.outside| && w.outside[i].Mbuf? && w.outside[i].id < |w.mem|
    requires ReleasedReal(t, |w.mem|) && !t.verdict.Crash?
    requires Balanced(w.conns, t, if t.verdict.Release? then -Tally(t.verdict.held[0].id, x) else 0, x)
    ensures var v := ApplyToOutside(w, i, t).w; Count(v, x) == Count(w, x) && |v.mem| == |w.mem|
  {
    hide In, At, HeldBy, AdjustHeld;
    var id := w.outside[i].id;
    CountConcat(w.lost, t.lost, x);
    CountAppend(w.freed, id, x);
    SlotCleared(w.outside, i, x);
    if t.verdict.Release? { SlotAdded(w.inside, t.verdict.held[0].id, x); }
  }

  /** Treating a packet keeps every buffer in exactly one place. */
  lemma {:induction false} StepToInsideOwned(w: World, hash: Hash, now: bv8, i: nat)
    requires Owned(w) && Sane(w) && i < |w.inside| && w.inside[i].Mbuf?
    ensures Owned(StepToInside(w, hash, now, i))
  {
    var id := w.inside[i].id;
    var h := w.mem[id];
    if h.tcp {
      hide Count, Balanced, JudgeToInside, ApplyToInside;
      var t := JudgeToInside(w.conns, hash, now, id, h);
      forall x: nat ensures Count(ApplyToInside(w, i, t), x) == if x < |ApplyToInside(w, i, t).mem| then 1 else 0 {
        ToInsideBalanced(w.conns, hash, now, id, h, x);
        ApplyToInsideCounts(w, i, t, x);
      }
    }
  }

  lemma {:induction false} StepToOutsideOwned(w: World, i: nat)
    requires Owned(w) && Sane(w) && i < |w.outside| && w.outside[i].Mbuf? && StepToOutside(w, i).Running?
    ensures Owned(StepToOutside(w, i).w)
  {
    var h := w.mem[w.outside[i].id];
    if h.tcp {
      var t := JudgeToOutside(w.conns, w.mem, h);
      ReleasedAreReal(w.conns, w.mem, h);
      assert !t.verdict.Crash?;
      hide Count, Balanced, JudgeToOutside, ApplyToOutside;
      forall x: nat
        ensures var v := ApplyToOutside(w, i, t).w; Count(v, x) == if x < |v.mem| then 1 else 0
      {
        ToOutsideBalanced(w.conns, w.mem, h, x);
        ApplyToOutsideCounts(w, i, t, x);
      }
    }
  }

  // ----- Polling and sending -----

  function PollInside(w: World, arrived: seq<Header>): World {
    w.(mem := w.mem + arrived, inside := Fresh(|w.mem|, |arrived|), abandoned := w.abandoned + Live(w.inside))
  }

  function PollOutside(w: World, arrived: seq<Header>): World {
    w.(mem := w.mem + arrived, outside := Fresh(|w.mem|, |arrived|), abandoned := w.abandoned + Live(w.outside))
  }

  /** The number of rows that hold n slots. */
  function Rows(n: nat): nat { (n + 31) / 32 }

  function SendInside(w: World, accept: nat -> nat): World {
    var rows := Rows(|w.inside|);
    w.(inside := [], sent := w.sent + SentRows(w.inside, rows, accept),
       freed := w.freed + FreedRows(w.inside, rows, accept))
  }

  function SendOutside(w: World, accept: nat -> nat): World {
    var rows := Rows(|w.outside|);
    w.(outside := [], sent := w.sent + SentRows(w.outside, rows, accept),
       freed := w.freed + FreedRows(w.outside, rows, accept))
  }

  lemma {:induction false} FreshGrows(from: nat, n: nat)
    ensures Fresh(from, n) == if n == 0 then [] else Fresh(from, n - 1) + [Mbuf(from + n - 1)]
  {}

  lemma {:induction false} EmptyCount(x: nat)
    ensures At([], x) == 0
  {}

  lemma {:induction false} FreshCount(from: nat, n: nat, x: nat)
    ensures At(Fresh(from, n), x) == if from <= x < from + n then 1 else 0
  {
    hide At, Fresh;
    FreshGrows(from, n);
    if n == 0 {
      EmptyCount(x);
    } else {
      FreshCount(from, n - 1, x);
      SlotAdded(Fresh(from, n - 1), from + n - 1, x);
    }
  }

  lemma {:induction false} SlotsAsList(s: seq<Pointer>, x: nat)
    ensures In(Live(s), x) == At(s, x)
  {}

  lemma {:induction false} PollOwned(w: World, arrived: seq<Header>)
    requires Owned(w)
    ensures Owned(PollInside(w, arrived)) && Owned(PollOutside(w, arrived))
  {
    hide In, At, HeldBy;
    forall x: nat
      ensures Count(PollInside(w, arrived), x) == Count(w, x) + if |w.mem| <= x < |w.mem| + |arrived| then 1 else 0
      ensures Count(PollOutside(w, arrived), x) == Count(w, x) + if |w.mem| <= x < |w.mem| + |arrived| then 1 else 0
    {
      FreshCount(|w.mem|, |arrived|, x);
      SlotsAsList(w.inside, x);
      SlotsAsList(w.outside, x);
      CountConcat(w.abandoned, Live(w.inside), x);
      CountConcat(w.abandoned, Live(w.outside), x);
    }
  }

  lemma {:induction false} RowsCount(n: nat)
    ensures RowCount(n, Rows(n))
  {}

  lemma {:induction false} SendCounts(slots: seq<Pointer>, accept: nat -> nat, x: nat)
    ensures var rows := Rows(|slots|);
      In(SentRows(slots, rows, accept), x) + In(FreedRows(slots, rows, accept), x) == At(slots, x)
  {
    RowsCount(|slots|);
    hide Live, Rows, SentRows, FreedRows, RowCount;
    SendConserves(slots, Rows(|slots|), accept);
  }

  lemma {:induction false} SendOwned(w: World, accept: nat -> nat)
    requires Owned(w)
    ensures Owned(SendInside(w, accept)) && Owned(SendOutside(w, accept))
  {
    hide In, At, HeldBy, Rows, SentRows, FreedRows;
    forall x: nat
      ensures Count(SendInside(w, accept), x) == Count(w, x) && Count(SendOutside(w, accept), x) == Count(w, x)
    {
      EmptyCount(x);
      SendCounts(w.inside, accept, x);
      SendCounts(w.outside, accept, x);
      CountConcat(w.sent, SentRows(w.inside, Rows(|w.inside|), accept), x);
      CountConcat(w.freed, FreedRows(w.inside, Rows(|w.inside|), accept), x);
      CountConcat(w.sent, SentRows(w.outside, Rows(|w.outside|), accept), x);
      CountConcat(w.freed, FreedRows(w.outside, Rows(|w.outside|), accept), x);
    }
  }

  // ----- Consequences -----

  /** A buffer in a slot is held by no connection and waits in no other container. */
  lemma {:induction false} SlotsApart(w: World, id: nat)
    requires Owned(w) && (Mbuf(id) in w.inside || Mbuf(id) in w.outside)
    ensures HeldIds(w.conns)[id] == 0
    ensures forall d :: d in w.conns ==> Mbuf(id) !in w.conns[d].held
    ensures !(Mbuf(id) in w.inside && Mbuf(id) in w.outside)
  {
    LiveMembers(w.inside, id);
    LiveMembers(w.outside, id);
    hide Live, HeldIds;
    assert Count(w, id) <= 1;
    forall d | d in w.conns ensures Mbuf(id) !in w.conns[d].held {
      LiveMembers(w.conns[d].held, id);
      HeldOne(w.conns, d);
    }
  }

  /** No buffer is held by two connections. */
  lemma {:induction false} HeldApart(w: World, d: Data, e: Data, id: nat)
    requires Owned(w) && d in w.conns && e in w.conns && d != e && Mbuf(id) in w.conns[d].held
    ensures Mbuf(id) !in w.conns[e].held
  {
    LiveMembers(w.conns[d].held, id);
    LiveMembers(w.conns[e].held, id);
    hide Live, HeldIds;
    HeldOne(w.conns, d);
    HeldOne(w.conns - {d}, e);
    assert Count(w, id) <= 1;
  }

  /** A held buffer has not been sent and waits in no slot. */
  lemma {:induction false} HeldIsNowhereElse(w: World, d: Data, id: nat)
    requires Owned(w) && d in w.conns && Mbuf(id) in w.conns[d].held
    ensures id !in w.sent && Mbuf(id) !in w.inside && Mbuf(id) !in w.outside
  {
    LiveMembers(w.inside, id);
    LiveMembers(w.outside, id);
    LiveMembers(w.conns[d].held, id);
    hide Live, HeldIds;
    HeldOne(w.conns, d);
    assert Count(w, id) <= 1;
  }
}
