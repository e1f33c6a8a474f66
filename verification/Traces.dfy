/** The states that the thread's loop passes through, one packet, poll or send at a time:
    every execution of the loop is a run, so what holds of runs holds of the loop. */
module Traces {
  import opened Cookie
  import opened Mbufs
  import opened ConnectionHash
  import opened Connections
  import opened Treatment
  import opened Ownership
  import opened Runs
  import opened DefenseLoop

  function Last(ws: seq<World>): World
    requires |ws| > 0
  {
    ws[|ws| - 1]
  }

  // ----- Gluing runs together -----

  lemma {:induction false} OneStep(w: World, v: World, hash: Hash)
    requires Next(w, v, hash)
    ensures IsRun([w, v], hash)
  {
    assert [w, v][0] == w && [w, v][0 + 1] == v;
  }

  /** A run that starts where another ends, written without the shared state twice. */
  function Glued(a: seq<World>, b: seq<World>): (c: seq<World>)
    requires |a| > 0 && |b| > 0
    ensures |c| == |a| + |b| - 1
  {
    a + b[1..]
  }

  lemma {:induction false} GluedRuns(a: seq<World>, b: seq<World>, hash: Hash)
    requires IsRun(a, hash) && IsRun(b, hash) && Last(a) == b[0]
    ensures IsRun(Glued(a, b), hash) && Glued(a, b)[0] == a[0] && Last(Glued(a, b)) == Last(b)
  {
    hide Next;
    var c := Glued(a, b);
    forall k | 0 <= k < |c| - 1 ensures Next(c[k], c[k + 1], hash) {
      if k < |a| - 1 {
        assert Next(a[k], a[k + 1], hash);
      } else {
        var m := k - (|a| - 1);
        assert c[k] == b[m] && c[k + 1] == b[m + 1];
        assert Next(b[m], b[m + 1], hash);
      }
    }
  }

  // ----- Treating the polled packets -----

  ghost function InsideTrace(w: World, hash: Hash, clock: nat -> bv8, i: nat, n: nat): (ws: seq<World>)
    requires Sane(w) && i <= n <= |w.inside| && Full(w.inside[i..n])
    ensures |ws| == n - i + 1
    decreases n - i
  {
    if i == n then [w] else
      FirstToInside(w, hash, clock, i, n);
      [w] + InsideTrace(StepToInside(w, hash, clock(i), i), hash, clock, i + 1, n)
  }

  lemma {:induction false} InsideTraceIsRun(w: World, hash: Hash, clock: nat -> bv8, i: nat, n: nat)
    requires Sane(w) && i <= n <= |w.inside| && Full(w.inside[i..n])
    ensures var ws := InsideTrace(w, hash, clock, i, n);
      IsRun(ws, hash) && ws[0] == w && Last(ws) == TreatToInside(w, hash, clock, i, n)
    decreases n - i
  {
    if i < n {
      FirstToInside(w, hash, clock, i, n);
      var v := StepToInside(w, hash, clock(i), i);
      assert InsideStep(w, v, hash, i, clock(i));
      assert Next(w, v, hash);
      hide StepToInside, TreatToInside, Next;
      InsideTraceIsRun(v, hash, clock, i + 1, n);
      OneStep(w, v, hash);
      var rest := InsideTrace(v, hash, clock, i + 1, n);
      GluedRuns([w, v], rest, hash);
      assert Glued([w, v], rest) == [w] + rest;
    } else {
      NoneToInside(w, hash, clock, n);
    }
  }

  /** Up to the packet that crashes the program, if there is one. */
  ghost function OutsideTrace(w: World, i: nat, n: nat): (ws: seq<World>)
    requires Sane(w) && i <= n <= |w.outside| && Full(w.outside[i..n])
    ensures |ws| > 0
    decreases n - i
  {
    if i == n then [w] else
      FirstToOutside(w, i, n);
      var o := StepToOutside(w, i);
      if o.Crashed? then [w] else [w] + OutsideTrace(o.w, i + 1, n)
  }

  /** The state in which the program goes down: treating some slot crashes. */
  ghost predicate Doomed(w: World) {
    Sane(w) && exists i: nat :: i < |w.outside| && w.outside[i].Mbuf? && StepToOutside(w, i).Crashed?
  }

  /** The trace ends in the outcome, or in the state whose next packet crashes. */
  ghost predicate EndsAs(ws: seq<World>, o: Outcome)
    requires |ws| > 0
  {
    if o.Crashed? then Doomed(Last(ws)) else Last(ws) == o.w
  }

  lemma {:induction false} OutsideTraceIsRun(w: World, hash: Hash, i: nat, n: nat)
    requires Sane(w) && i <= n <= |w.outside| && Full(w.outside[i..n])
    ensures var ws := OutsideTrace(w, i, n);
      IsRun(ws, hash) && ws[0] == w && EndsAs(ws, TreatToOutside(w, i, n))
    decreases n - i
  {
    if i < n {
      FirstToOutside(w, i, n);
      if StepToOutside(w, i).Running? {
        var v := StepToOutside(w, i).w;
        assert OutsideStep(w, v, i);
        assert Next(w, v, hash);
        hide StepToOutside, TreatToOutside, Next, Doomed;
        OutsideTraceIsRun(v, hash, i + 1, n);
        OneStep(w, v, hash);
        var rest := OutsideTrace(v, i + 1, n);
        GluedRuns([w, v], rest, hash);
        assert Glued([w, v], rest) == [w] + rest;
      }
    } else {
      NoneToOutside(w, n);
    }
  }

  // ----- Polls and sends around them -----

  lemma {:induction false} PollIsNext(w: World, arrived: seq<Header>, hash: Hash)
    ensures Next(w, PollInside(w, arrived), hash) && Next(w, PollOutside(w, arrived), hash)
  {
    assert PollStep(w, PollInside(w, arrived), arrived);
    assert PollStep(w, PollOutside(w, arrived), arrived);
  }

  lemma {:induction false} SendIsNext(w: World, accept: nat -> nat, hash: Hash)
    ensures Next(w, SendInside(w, accept), hash) && Next(w, SendOutside(w, accept), hash)
  {
    hide SendInside, SendOutside;
    assert SendStep(w, SendInside(w, accept), accept);
    assert SendStep(w, SendOutside(w, accept), accept);
  }

  function Sends(t: World, first: nat -> nat, second: nat -> nat): seq<World> {
    [t, SendInside(t, first), SendOutside(SendInside(t, first), second)]
  }

  lemma {:induction false} SendsAreRun(t: World, first: nat -> nat, second: nat -> nat, hash: Hash)
    ensures IsRun(Sends(t, first, second), hash)
  {
    var u := SendInside(t, first);
    var v := SendOutside(u, second);
    SendIsNext(t, first, hash);
    SendIsNext(u, second, hash);
    hide SendInside, SendOutside, Next;
    var ws := [t, u, v];
    assert forall k :: 0 <= k < 2 ==> Next(ws[k], ws[k + 1], hash);
  }

  ghost function InsideHalfTrace(
      w: World, hash: Hash, clock: nat -> bv8, arrived: seq<Header>, first: nat -> nat, second: nat -> nat)
      : (ws: seq<World>)
    requires Sane(w)
    ensures |ws| > 0
  {
    var p := PollInside(w, arrived);
    PollIsSane(w, arrived);
    if |arrived| == 0 then [w, p]
    else
      var t := TreatToInside(p, hash, clock, 0, |arrived|);
      Glued([w, p], Glued(InsideTrace(p, hash, clock, 0, |arrived|), Sends(t, first, second)))
  }

  lemma {:induction false} InsideHalfTraceIsRun(
    w: World, hash: Hash, clock: nat -> bv8, arrived: seq<Header>, first: nat -> nat, second: nat -> nat)
    requires Sane(w)
    ensures var ws := InsideHalfTrace(w, hash, clock, arrived, first, second);
      IsRun(ws, hash) && ws[0] == w && Last(ws) == InsideHalf(w, hash, clock, arrived, first, second)
  {
    var p := PollInside(w, arrived);
    PollIsSane(w, arrived);
    PollIsNext(w, arrived, hash);
    OneStep(w, p, hash);
    if |arrived| > 0 {
      var t := TreatToInside(p, hash, clock, 0, |arrived|);
      InsideTraceIsRun(p, hash, clock, 0, |arrived|);
      SendsAreRun(t, first, second, hash);
      hide IsRun, TreatToInside, InsideTrace, Glued, SendInside, SendOutside;
      GluedRuns(InsideTrace(p, hash, clock, 0, |arrived|), Sends(t, first, second), hash);
      GluedRuns([w, p], Glued(InsideTrace(p, hash, clock, 0, |arrived|), Sends(t, first, second)), hash);
    }
  }

  ghost function OutsideHalfTrace(
      w: World, arrived: seq<Header>, first: nat -> nat, second: nat -> nat): (ws: seq<World>)
    requires Sane(w)
    ensures |ws| > 0
  {
    var p := PollOutside(w, arrived);
    PollIsSane(w, arrived);
    if |arrived| == 0 then [w, p]
    else
      var trace := OutsideTrace(p, 0, |arrived|);
      var o := TreatToOutside(p, 0, |arrived|);
      Glued([w, p], if o.Crashed? then trace else Glued(trace, Sends(o.w, first, second)))
  }

  lemma {:induction false} OutsideHalfTraceIsRun(
    w: World, hash: Hash, arrived: seq<Header>, first: nat -> nat, second: nat -> nat)
    requires Sane(w)
    ensures var ws := OutsideHalfTrace(w, arrived, first, second);
      IsRun(ws, hash) && ws[0] == w && EndsAs(ws, OutsideHalf(w, arrived, first, second))
  {
    var p := PollOutside(w, arrived);
    PollIsSane(w, arrived);
    PollIsNext(w, arrived, hash);
    OneStep(w, p, hash);
    if |arrived| > 0 {
      OutsideTraceIsRun(p, hash, 0, |arrived|);
      var trace := OutsideTrace(p, 0, |arrived|);
      hide IsRun, TreatToOutside, OutsideTrace, Glued, SendInside, SendOutside, Doomed;
      var o := TreatToOutside(p, 0, |arrived|);
      if o.Crashed? {
        GluedRuns([w, p], trace, hash);
      } else {
        SendsAreRun(o.w, first, second, hash);
        GluedRuns(trace, Sends(o.w, first, second), hash);
        GluedRuns([w, p], Glued(trace, Sends(o.w, first, second)), hash);
      }
    }
  }

  // ----- Rounds -----

  ghost function RoundTrace(w: World, hash: Hash, env: Environment, r: nat): (ws: seq<World>)
    requires Sane(w) && AtRest(w, w.abandoned)
    ensures |ws| > 0
  {
    InsideHalfRests(w, hash, ClockIn(env, r), env.toInside(r), Accepts(env, r, 0), Accepts(env, r, 1));
    var v := InsideHalf(w, hash, ClockIn(env, r), env.toInside(r), Accepts(env, r, 0), Accepts(env, r, 1));
    OwnedIsSane(v);
    Glued(InsideHalfTrace(w, hash, ClockIn(env, r), env.toInside(r), Accepts(env, r, 0), Accepts(env, r, 1)),
          OutsideHalfTrace(v, env.toOutside(r), Accepts(env, r, 2), Accepts(env, r, 3)))
  }

  lemma {:induction false} RoundTraceIsRun(w: World, hash: Hash, env: Environment, r: nat)
    requires Sane(w) && AtRest(w, w.abandoned)
    ensures var ws := RoundTrace(w, hash, env, r);
      IsRun(ws, hash) && ws[0] == w && EndsAs(ws, Round(w, hash, env, r))
  {
    InsideHalfRests(w, hash, ClockIn(env, r), env.toInside(r), Accepts(env, r, 0), Accepts(env, r, 1));
    var v := InsideHalf(w, hash, ClockIn(env, r), env.toInside(r), Accepts(env, r, 0), Accepts(env, r, 1));
    OwnedIsSane(v);
    hide IsRun, Reachable, InsideHalf, OutsideHalf, InsideHalfTrace, OutsideHalfTrace, Glued, Doomed;
    InsideHalfTraceIsRun(w, hash, ClockIn(env, r), env.toInside(r), Accepts(env, r, 0), Accepts(env, r, 1));
    OutsideHalfTraceIsRun(v, hash, env.toOutside(r), Accepts(env, r, 2), Accepts(env, r, 3));
    GluedRuns(InsideHalfTrace(w, hash, ClockIn(env, r), env.toInside(r), Accepts(env, r, 0), Accepts(env, r, 1)),
              OutsideHalfTrace(v, env.toOutside(r), Accepts(env, r, 2), Accepts(env, r, 3)), hash);
  }

  /** All states of the rounds r to n, up to a crash. */
  ghost function RoundsTrace(w: World, hash: Hash, env: Environment, r: nat, n: nat): (ws: seq<World>)
    requires Sane(w) && AtRest(w, w.abandoned) && r <= n
    ensures |ws| > 0
    decreases n - r
  {
    if r == n then [w] else
      RoundRests(w, hash, env, r);
      var o := Round(w, hash, env, r);
      if o.Crashed? then RoundTrace(w, hash, env, r)
      else Glued(RoundTrace(w, hash, env, r), RoundsTrace(o.w, hash, env, r + 1, n))
  }

  /** What the thread computes is the end of a run that starts where the thread does; if
      it crashes, the run ends in the state whose next packet crashes. */
  lemma {:induction false} LoopIsRun(w: World, hash: Hash, env: Environment, r: nat, n: nat)
    requires Sane(w) && AtRest(w, w.abandoned) && r <= n
    ensures var ws := RoundsTrace(w, hash, env, r, n);
      IsRun(ws, hash) && ws[0] == w && EndsAs(ws, Rounds(w, hash, env, r, n))
    decreases n - r
  {
    if r == n {
    } else {
      RoundRests(w, hash, env, r);
      RoundTraceIsRun(w, hash, env, r);
      hide IsRun, AtRest, Round, RoundTrace, Glued, Doomed;
      var o := Round(w, hash, env, r);
      if o.Running? {
        LoopIsRun(o.w, hash, env, r + 1, n);
        GluedRuns(RoundTrace(w, hash, env, r), RoundsTrace(o.w, hash, env, r + 1, n), hash);
      }
    }
  }

  // ----- What holds of the loop because it is a run -----

  /** Splicing: from any state k in which a connection waits, as long as it keeps its entry,
      it waits until the first SYN-ACK from inside and is spliced with that one's number ever
      after. */
  lemma {:induction false} LoopSplices(
    w: World, hash: Hash, env: Environment, r: nat, n: nat, k: nat, d: Data, cookie: bv32)
    requires Sane(w) && AtRest(w, w.abandoned) && r <= n && k < |RoundsTrace(w, hash, env, r, n)|
    requires var here := RoundsTrace(w, hash, env, r, n)[k]; Opened(here.conns, here.mem, d, cookie)
    requires forall v :: v in RoundsTrace(w, hash, env, r, n)[k..] ==> d in v.conns
    ensures var ws := RoundsTrace(w, hash, env, r, n)[k..];
      Waits(ws, d, cookie) || exists isn: bv32, j :: SplicedSince(ws, d, cookie, isn, j)
  {
    LoopIsRun(w, hash, env, r, n);
    hide IsRun, Reachable, RoundsTrace, Rounds, Opened, Waits, SplicedSince;
    var ws := RoundsTrace(w, hash, env, r, n);
    RunReachable(ws, hash);
    Suffix(ws, hash, k);
    SplicedRun(ws[k..], hash, d, cookie);
  }

  /** If the entry is there before the step and gone after it, the step treats a packet of
      that connection which may end it. */
  ghost predicate EndsOnlyByPacket(w: World, v: World, hash: Hash, d: Data) {
    d in w.conns && d !in v.conns ==> exists h :: Treats(w, v, hash, d, h) && h.tcp && Leaves(w.conns[d], h)
  }

  /** Closing: the three invariants of runs hold in every state the loop passes through,
      and no entry is lost between two of them but to a packet of its own. */
  lemma {:induction false} LoopCloses(w: World, hash: Hash, env: Environment, r: nat, n: nat, d: Data)
    requires Sane(w) && AtRest(w, w.abandoned) && r <= n
    ensures var ws := RoundsTrace(w, hash, env, r, n);
      && (forall k :: 0 <= k < |ws| ==> Reachable(ws[k]))
      && (forall k :: 0 <= k < |ws| - 1 ==> EndsOnlyByPacket(ws[k], ws[k + 1], hash, d))
  {
    LoopIsRun(w, hash, env, r, n);
    hide Reachable, RoundsTrace, Rounds, Next, Treats, Leaves;
    var ws := RoundsTrace(w, hash, env, r, n);
    RunReachable(ws, hash);
    forall k | 0 <= k < |ws| - 1 ensures EndsOnlyByPacket(ws[k], ws[k + 1], hash, d) {
      assert Next(ws[k], ws[k + 1], hash);
      if d in ws[k].conns { NextKeepsEntry(ws[k], ws[k + 1], hash, d); }
    }
  }

  /** In the last state slot i holds a SYN-ACK from inside, and step b made the entry of
      its connection without holding a packet. */
  ghost predicate CrashesOn(ws: seq<World>, hash: Hash, i: nat, b: int)
    requires |ws| > 0
  {
    var w := Last(ws);
    && Sane(w) && i < |w.outside| && w.outside[i].Mbuf?
    && var h := w.mem[w.outside[i].id];
    && h.tcp && Has(h, SYNACK)
    && BornAt(ws, b, KeyToOutside(h)) && MadeUnheld(ws[b], ws[b + 1], hash, KeyToOutside(h))
  }

  lemma {:induction false} DoomedRun(ws: seq<World>, hash: Hash)
    requires IsRun(ws, hash) && ws[0] == Start() && Doomed(Last(ws))
    ensures exists i: nat, b :: CrashesOn(ws, hash, i, b)
  {
    var w := Last(ws);
    hide IsRun, BornAt, MadeUnheld, Has, KeyToOutside, StepToOutside;
    var i: nat :| i < |w.outside| && w.outside[i].Mbuf? && StepToOutside(w, i).Crashed?;
    CrashFromPackets(ws, hash, i);
    var d := KeyToOutside(w.mem[w.outside[i].id]);
    var b :| BornAt(ws, b, d) && MadeUnheld(ws[b], ws[b + 1], hash, d);
    assert CrashesOn(ws, hash, i, b);
  }

  /** Crashing: a loop that starts empty goes down only on a SYN-ACK from inside for an
      entry that was made without a held packet. */
  lemma {:induction false} LoopCrashes(hash: Hash, env: Environment, n: nat)
    requires Rounds(Start(), hash, env, 0, n).Crashed?
    ensures exists i: nat, b :: CrashesOn(RoundsTrace(Start(), hash, env, 0, n), hash, i, b)
  {
    LoopIsRun(Start(), hash, env, 0, n);
    hide RoundsTrace, Rounds, IsRun, Reachable, Doomed, CrashesOn;
    DoomedRun(RoundsTrace(Start(), hash, env, 0, n), hash);
  }
}
