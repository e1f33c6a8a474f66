/** Packet buffers as the proxy sees them: pointers to numbered buffers, the header
    each buffer holds, and what has left the program so far. */
module Mbufs {
  /** A null pointer, or a pointer to a buffer. */
  datatype Pointer = Null | Mbuf(id: nat)

  /** The header fields the treatment reads and writes; tcp says whether the parser
      classified the packet as TCP over IPv4. */
  datatype Header = Header(
    tcp: bool, srcMac: bv48, dstMac: bv48, srcIp: bv32, dstIp: bv32, srcPort: bv16, dstPort: bv16,
    seqNum: bv32, ackNum: bv32, flags: bv8, window: bv16)

  /** The buffers that a list of pointers names, in order. */
  function Live(s: seq<Pointer>): (ids: seq<nat>)
    ensures |ids| <= |s|
  {
    if s == [] then [] else (if s[0].Mbuf? then [s[0].id] else []) + Live(s[1..])
  }

  /** No pointer is null. */
  ghost predicate Full(s: seq<Pointer>) {
    forall k :: 0 <= k < |s| ==> s[k].Mbuf?
  }

  function One(p: Pointer): seq<nat> { if p.Mbuf? then [p.id] else [] }

  lemma {:induction false} LiveStep(s: seq<Pointer>)
    requires s != []
    ensures Live(s) == One(s[0]) + Live(s[1..])
  {}

  lemma {:induction false} Associates(a: seq<nat>, b: seq<nat>, c: seq<nat>)
    ensures a + (b + c) == (a + b) + c
  {}

  lemma {:induction false} LiveConcat(a: seq<Pointer>, b: seq<Pointer>)
    ensures Live(a + b) == Live(a) + Live(b)
  {
    if a == [] {
      assert a + b == b;
    } else {
      hide *;
      LiveConcat(a[1..], b);
      assert (a + b)[1..] == a[1..] + b && (a + b)[0] == a[0];
      LiveStep(a);
      LiveStep(a + b);
      Associates(One(a[0]), Live(a[1..]), Live(b));
    }
  }

  lemma {:induction false} LiveSplit(s: seq<Pointer>, k: nat)
    requires k < |s|
    ensures Live(s) == Live(s[..k]) + Live([s[k]]) + Live(s[k + 1..])
    ensures Live(s[..k + 1]) == Live(s[..k]) + Live([s[k]])
    ensures Live([s[k]]) == if s[k].Mbuf? then [s[k].id] else []
  {
    assert s == s[..k] + [s[k]] + s[k + 1..];
    LiveConcat(s[..k] + [s[k]], s[k + 1..]);
    LiveConcat(s[..k], [s[k]]);
    assert s[..k + 1] == s[..k] + [s[k]];
    assert [s[k]][1..] == [];
  }

  /** Storing null over a live pointer takes exactly that buffer out. */
  lemma {:induction false} LiveWithout(s: seq<Pointer>, k: nat)
    requires k < |s| && s[k].Mbuf?
    ensures multiset(Live(s)) == multiset(Live(s[k := Null])) + multiset{s[k].id}
  {
    var t := s[k := Null];
    LiveSplit(s, k);
    LiveSplit(t, k);
    assert t[..k] == s[..k] && t[k + 1..] == s[k + 1..];
  }

  lemma {:induction false} LiveFull(s: seq<Pointer>)
    requires Full(s)
    ensures |Live(s)| == |s| && forall k :: 0 <= k < |s| ==> s[k] == Mbuf(Live(s)[k])
  {
    if s == [] {
    } else {
      LiveFull(s[1..]);
    }
  }

  /** Every listed buffer comes from a live pointer and the other way round. */
  lemma {:induction false} LiveMembers(s: seq<Pointer>, id: nat)
    ensures id in Live(s) <==> Mbuf(id) in s
  {
    if s == [] {
    } else {
      LiveMembers(s[1..], id);
      assert s == [s[0]] + s[1..];
    }
  }

  function Min(a: nat, b: nat): nat { if a < b then a else b }

  /** Consecutive new buffers. */
  function Fresh(from: nat, n: nat): (s: seq<Pointer>)
    ensures |s| == n
    ensures forall k :: 0 <= k < n ==> s[k] == Mbuf(from + k)
  {
    seq(n, (k: nat) => Mbuf(from + k))
  }

  /** The buffer pool and both NIC ports. A buffer's number is its index in headers;
      the ghost fields record what happened to buffers that no longer wait in the program. */
  class Memory {
    var headers: seq<Header>
    ghost var sent: seq<nat>
    ghost var freed: seq<nat>
    ghost var abandoned: seq<nat>

    constructor ()
      ensures headers == [] && sent == [] && freed == [] && abandoned == []
    {
      headers, sent, freed, abandoned := [], [], [], [];
    }

    /** rte_eth_rx_burst: the NIC hands over new buffers. */
    method RxBurst(arrived: seq<Header>) returns (burst: seq<Pointer>)
      modifies `headers
      ensures headers == old(headers) + arrived && burst == Fresh(old(|headers|), |arrived|)
    {
      burst := Fresh(|headers|, |arrived|);
      headers := headers + arrived;
    }

    /** rte_eth_tx_burst: the NIC takes some first part of what it is offered. */
    method TxBurst(burst: seq<Pointer>, accept: nat) returns (n: nat)
      requires Full(burst)
      modifies `sent
      ensures n == Min(accept, |Live(burst)|) && n <= |burst| && sent == old(sent) + Live(burst)[..n]
    {
      LiveFull(burst);
      n := Min(accept, |burst|);
      sent := sent + Live(burst)[..n];
    }

    /** rte_pktmbuf_free */
    method Free(p: Pointer)
      requires p.Mbuf?
      modifies `freed
      ensures freed == old(freed) + [p.id]
    {
      freed := freed + [p.id];
    }

    /** rte_pktmbuf_alloc, with whatever the buffer holds at first. */
    method Alloc(blank: Header) returns (p: Pointer)
      modifies `headers
      ensures p == Mbuf(old(|headers|)) && headers == old(headers) + [blank]
    {
      p := Mbuf(|headers|);
      headers := headers + [blank];
    }

    /** The packet info's setters write through to the buffer. */
    method Write(p: Pointer, h: Header)
      requires p.Mbuf? && p.id < |headers|
      modifies `headers
      ensures headers == old(headers)[p.id := h]
    {
      headers := headers[p.id := h];
    }
  }
}
