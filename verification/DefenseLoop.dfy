/** The thread's loop: poll, treat and send, first towards the inside, then towards the
    outside, with two containers that share one pool of buffers. */
module DefenseLoop {
  import opened Cookie
  import opened Mbufs
  import opened Connections
  import opened Treatment
  import opened Ownership
  import opened Runs

  // ----- One round, on the whole state -----

  ghost predicate Settled(w: World) { w.inside == [] && w.outside == [] }

  lemma {:induction false} PollIsSane(w: World, arrived: seq<Header>)
    requires Sane(w)
    ensures Sane(PollInside(w, arrived)) && Full(PollInside(w, arrived).inside[0..|arrived|])
    ensures Sane(PollOutside(w, arrived)) && Full(PollOutside(w, arrived).outside[0..|arrived|])
  {}

  /** The half that carries packets to the inside. */
  function InsideHalf(
      w: World, hash: Hash, clock: nat -> bv8, arrived: seq<Header>, first: nat -> nat, second: nat -> nat): World
    requires Sane(w)
  {
    var p := PollInside(w, arrived);
    PollIsSane(w, arrived);
    if |arrived| == 0 then p
    else SendOutside(SendInside(TreatToInside(p, hash, clock, 0, |arrived|), first), second)
  }

  /** The half that carries packets to the outside. */
  function OutsideHalf(w: World, arrived: seq<Header>, first: nat -> nat, second: nat -> nat): Outcome
    requires Sane(w)
  {
    var p := PollOutside(w, arrived);
    PollIsSane(w, arrived);
    if |arrived| == 0 then Running(p)
    else
      var o := TreatToOutside(p, 0, |arrived|);
      if o.Crashed? then o else Running(SendOutside(SendInside(o.w, first), second))
  }

  // ----- What a half keeps -----

  /** In every state the loop can be in between two polls. */
  ghost predicate AtRest(w: World, abandoned: seq<nat>) {
    Reachable(w) && Settled(w) && w.abandoned == abandoned
  }

  lemma {:induction false} InsideAbandonsNothing(w: World, v: World, hash: Hash, i: nat, now: bv8)
    requires InsideStep(w, v, hash, i, now)
    ensures v.abandoned == w.abandoned
  {
    hide JudgeToInside;
  }

  lemma {:induction false} OutsideAbandonsNothing(w: World, v: World, i: nat)
    requires OutsideStep(w, v, i)
    ensures v.abandoned == w.abandoned
  {
    ReleasedAreReal(w.conns, w.mem, w.mem[w.outside[i].id]);
    hide JudgeToOutside, AdjustHeld;
  }

  lemma {:induction false} TreatToInsideReachable(w: World, hash: Hash, clock: nat -> bv8, i: nat, n: nat)
    requires Reachable(w) && Sane(w) && i <= n <= |w.inside| && Full(w.inside[i..n])
    ensures Reachable(TreatToInside(w, hash, clock, i, n))
    ensures TreatToInside(w, hash, clock, i, n).abandoned == w.abandoned
    decreases n - i
  {
    if i == n {
      NoneToInside(w, hash, clock, n);
    } else {
      FirstToInside(w, hash, clock, i, n);
      var v := StepToInside(w, hash, clock(i), i);
      InsideAbandonsNothing(w, v, hash, i, clock(i));
      InsideReachable(w, v, hash, i, clock(i));
      hide Reachable, StepToInside, TreatToInside;
      TreatToInsideReachable(v, hash, clock, i + 1, n);
    }
  }

  lemma {:induction false} TreatToOutsideReachable(w: World, i: nat, n: nat)
    requires Reachable(w) && Sane(w) && i <= n <= |w.outside| && Full(w.outside[i..n])
    ensures var o := TreatToOutside(w, i, n); o.Running? ==> Reachable(o.w) && o.w.abandoned == w.abandoned
    decreases n - i
  {
    if i == n {
      NoneToOutside(w, n);
    } else {
      FirstToOutside(w, i, n);
      if StepToOutside(w, i).Running? {
        var v := StepToOutside(w, i).w;
        OutsideAbandonsNothing(w, v, i);
        OutsideReachable(w, v, i);
        hide Reachable, StepToOutside, TreatToOutside;
        TreatToOutsideReachable(v, i + 1, n);
      }
    }
  }

  lemma {:induction false} InsideHalfRests(
    w: World, hash: Hash, clock: nat -> bv8, arrived: seq<Header>, first: nat -> nat, second: nat -> nat)
    requires Sane(w) && AtRest(w, w.abandoned)
    ensures AtRest(InsideHalf(w, hash, clock, arrived, first, second), w.abandoned)
  {
    var p := PollInside(w, arrived);
    PollIsSane(w, arrived);
    PollOwned(w, arrived);
    assert p.abandoned == w.abandoned && Reachable(p) by { hide Owned; }
    if |arrived| > 0 {
      TreatToInsideReachable(p, hash, clock, 0, |arrived|);
      var t := TreatToInside(p, hash, clock, 0, |arrived|);
      hide TreatToInside, Owned, PacketContainer.SentRows, PacketContainer.FreedRows;
      SendOwned(t, first);
      SendOwned(SendInside(t, first), second);
    }
  }

  lemma {:induction false} OutsideHalfRests(w: World, arrived: seq<Header>, first: nat -> nat, second: nat -> nat)
    requires Sane(w) && AtRest(w, w.abandoned)
    ensures var o := OutsideHalf(w, arrived, first, second); o.Running? ==> AtRest(o.w, w.abandoned)
  {
    var p := PollOutside(w, arrived);
    PollIsSane(w, arrived);
    PollOwned(w, arrived);
    assert p.abandoned == w.abandoned && Reachable(p) by { hide Owned; }
    if |arrived| > 0 {
      TreatToOutsideReachable(p, 0, |arrived|);
      if TreatToOutside(p, 0, |arrived|).Running? {
        var t := TreatToOutside(p, 0, |arrived|).w;
        hide TreatToOutside, Owned, PacketContainer.SentRows, PacketContainer.FreedRows;
        SendOwned(t, first);
        SendOwned(SendInside(t, first), second);
      }
    }
  }

  // ----- Every run of the loop -----

  /** Everything that decides a run besides the starting state: what arrives in round r
      on either side, what the NIC accepts, and when the clock ticks between packets. */
  datatype Environment = Environment(
    toInside: nat -> seq<Header>, toOutside: nat -> seq<Header>,
    nic: (nat, nat, nat) -> nat, clock: (nat, nat) -> bv8)

  function Accepts(env: Environment, r: nat, send: nat): nat -> nat { (row: nat) => env.nic(r, send, row) }
  function ClockIn(env: Environment, r: nat): nat -> bv8 { (i: nat) => env.clock(r, i) }

  function Round(w: World, hash: Hash, env: Environment, r: nat): Outcome
    requires Sane(w) && AtRest(w, w.abandoned)
  {
    InsideHalfRests(w, hash, ClockIn(env, r), env.toInside(r), Accepts(env, r, 0), Accepts(env, r, 1));
    var v := InsideHalf(w, hash, ClockIn(env, r), env.toInside(r), Accepts(env, r, 0), Accepts(env, r, 1));
    OwnedIsSane(v);
    OutsideHalf(v, env.toOutside(r), Accepts(env, r, 2), Accepts(env, r, 3))
  }

  lemma {:induction false} RoundRests(w: World, hash: Hash, env: Environment, r: nat)
    requires Sane(w) && AtRest(w, w.abandoned)
    ensures var o := Round(w, hash, env, r); o.Running? ==> AtRest(o.w, w.abandoned) && Sane(o.w)
  {
    InsideHalfRests(w, hash, ClockIn(env, r), env.toInside(r), Accepts(env, r, 0), Accepts(env, r, 1));
    var v := InsideHalf(w, hash, ClockIn(env, r), env.toInside(r), Accepts(env, r, 0), Accepts(env, r, 1));
    OwnedIsSane(v);
    OutsideHalfRests(v, env.toOutside(r), Accepts(env, r, 2), Accepts(env, r, 3));
    var o := Round(w, hash, env, r);
    if o.Running? { OwnedIsSane(o.w); }
  }

  /** The state after the rounds r to n, unless the program crashes before. */
  function Rounds(w: World, hash: Hash, env: Environment, r: nat, n: nat): Outcome
    requires Sane(w) && AtRest(w, w.abandoned) && r <= n
    decreases n - r
  {
    if r == n then Running(w)
    else
      RoundRests(w, hash, env, r);
      var o := Round(w, hash, env, r);
      if o.Crashed? then o else Rounds(o.w, hash, env, r + 1, n)
  }

  /** Over every run of the loop each buffer stays in exactly one place, both containers
      are empty at every poll, and so no poll ever overwrites a buffer. */
  lemma {:induction false} RunsAbandonNothing(w: World, hash: Hash, env: Environment, r: nat, n: nat)
    requires Sane(w) && AtRest(w, w.abandoned) && r <= n
    ensures var o := Rounds(w, hash, env, r, n);
      o.Running? ==> Owned(o.w) && Settled(o.w) && o.w.abandoned == w.abandoned
    decreases n - r
  {
    if r == n {
    } else {
      RoundRests(w, hash, env, r);
      if Round(w, hash, env, r).Running? {
        hide Owned, AllClosing, NullOnlyFirst, Round;
        RunsAbandonNothing(Round(w, hash, env, r).w, hash, env, r + 1, n);
      }
    }
  }

  // ----- The thread object -----

  lemma {:induction false} RowsUnique(n: nat, rows: nat)
    requires n > 0 && PacketContainer.RowCount(n, rows)
    ensures rows == Rows(n)
  {}

  /** An empty container sends nothing, whatever its row count says. */
  lemma {:induction false} SameRows(slots: seq<Pointer>, rows: nat, accept: nat -> nat)
    requires PacketContainer.RowCount(|slots|, rows)
    ensures PacketContainer.SentRows(slots, rows, accept) == PacketContainer.SentRows(slots, Rows(|slots|), accept)
    ensures PacketContainer.FreedRows(slots, rows, accept) == PacketContainer.FreedRows(slots, Rows(|slots|), accept)
  {
    if slots == [] {
      PacketContainer.NothingToSend(slots, rows, accept);
      PacketContainer.NothingToSend(slots, Rows(0), accept);
    } else {
      RowsUnique(|slots|, rows);
    }
  }

  lemma {:induction false} RestIsSane(w: World)
    requires exists abandoned :: AtRest(w, abandoned)
    ensures Sane(w) && AtRest(w, w.abandoned)
  {
    OwnedIsSane(w);
  }

  class DefenseThread {
    const treatment: Treatment
    const inside: PacketContainer.Container
    const outside: PacketContainer.Container

    /** Both containers and the treatment start empty; the secret comes from a random source. */
    constructor (cookieSecret: bv64)
      ensures fresh(treatment) && fresh(treatment.Footprint())
      ensures inside == treatment.inside && outside == treatment.outside && treatment.hash == ProgramHash(cookieSecret)
      ensures treatment.Linked() && treatment.View() == Start()
    {
      var memory := new Memory();
      var into := new PacketContainer.Container(memory);
      var out := new PacketContainer.Container(memory);
      inside, outside := into, out;
      treatment := new Treatment(memory, into, out, ProgramHash(cookieSecret));
    }

    ghost predicate Wired() {
      inside == treatment.inside && outside == treatment.outside
    }

    method SendInto(accept: nat -> nat)
      requires Wired() && treatment.Linked()
      modifies treatment.Footprint()
      ensures treatment.Linked() && treatment.View() == SendInside(old(treatment.View()), accept)
    {
      SameRows(inside.slots, inside.nbArrays, accept);
      hide PacketContainer.Container.Valid, PacketContainer.SentRows, PacketContainer.FreedRows, Rows;
      var _ := inside.SendPackets(accept);
    }

    method SendOut(accept: nat -> nat)
      requires Wired() && treatment.Linked()
      modifies treatment.Footprint()
      ensures treatment.Linked() && treatment.View() == SendOutside(old(treatment.View()), accept)
    {
      SameRows(outside.slots, outside.nbArrays, accept);
      hide PacketContainer.Container.Valid, PacketContainer.SentRows, PacketContainer.FreedRows, Rows;
      var _ := outside.SendPackets(accept);
    }

    /** Alice to Bob. */
    method ServeInside(env: Environment, r: nat)
      requires Wired() && treatment.Linked()
      requires Sane(treatment.View()) && AtRest(treatment.View(), treatment.View().abandoned)
      requires |env.toInside(r)| <= 32
      modifies treatment.Footprint()
      ensures treatment.Linked()
      ensures treatment.View() == InsideHalf(old(treatment.View()), treatment.hash, ClockIn(env, r), env.toInside(r),
                                             Accepts(env, r, 0), Accepts(env, r, 1))
    {
      hide PacketContainer.Container.Valid, Reachable, SendInside, SendOutside, TreatToInside;
      PollIsSane(treatment.View(), env.toInside(r));
      var polled := inside.PollPackets(env.toInside(r));
      assert treatment.View() == PollInside(old(treatment.View()), env.toInside(r));
      if polled > 0 {
        treatment.TreatPacketsToInside(ClockIn(env, r));
        SendInto(Accepts(env, r, 0));
        SendOut(Accepts(env, r, 1));
      }
    }

    /** Bob to Alice. */
    method ServeOutside(env: Environment, r: nat) returns (ok: bool)
      requires Wired() && treatment.Linked()
      requires Sane(treatment.View()) && AtRest(treatment.View(), treatment.View().abandoned)
      requires |env.toOutside(r)| <= 32
      modifies treatment.Footprint()
      ensures ok ==> treatment.Linked()
      ensures treatment.Became(
        OutsideHalf(old(treatment.View()), env.toOutside(r), Accepts(env, r, 2), Accepts(env, r, 3)), ok)
    {
      hide PacketContainer.Container.Valid, Reachable, SendInside, SendOutside, TreatToOutside;
      PollIsSane(treatment.View(), env.toOutside(r));
      var polled := outside.PollPackets(env.toOutside(r));
      assert treatment.View() == PollOutside(old(treatment.View()), env.toOutside(r));
      ok := true;
      if polled > 0 {
        ok := treatment.TreatPacketsToOutside();
        if ok {
          SendInto(Accepts(env, r, 2));
          SendOut(Accepts(env, r, 3));
        }
      }
    }

    /** run: as many rounds as pass before the quit flag is seen. */
    method Run(env: Environment, rounds: nat) returns (ok: bool)
      requires Wired() && treatment.Linked()
      requires Sane(treatment.View()) && AtRest(treatment.View(), treatment.View().abandoned)
      requires forall r :: |env.toInside(r)| <= 32 && |env.toOutside(r)| <= 32
      modifies treatment.Footprint()
      ensures treatment.Became(Rounds(old(treatment.View()), treatment.hash, env, 0, rounds), ok)
    {
      hide PacketContainer.Container.Valid, Reachable, InsideHalf, OutsideHalf, AtRest;
      ghost var w := treatment.View();
      ok := true;
      var r := 0;
      while r < rounds
        invariant r <= rounds && ok && treatment.Linked()
        invariant Sane(treatment.View()) && AtRest(treatment.View(), treatment.View().abandoned)
        invariant Rounds(treatment.View(), treatment.hash, env, r, rounds) == Rounds(w, treatment.hash, env, 0, rounds)
      {
        ghost var v := treatment.View();
        RoundRests(v, treatment.hash, env, r);
        InsideHalfRests(v, treatment.hash, ClockIn(env, r), env.toInside(r), Accepts(env, r, 0), Accepts(env, r, 1));
        ServeInside(env, r);
        RestIsSane(treatment.View());
        ok := ServeOutside(env, r);
        if !ok { return; }
        RestIsSane(treatment.View());
        r := r + 1;
      }
    }
  }
}
