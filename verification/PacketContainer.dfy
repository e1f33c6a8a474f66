/** The packet container: a two-dimensional array of buffer pointers that presents one
    flat list of slots, some of them empty. */
module PacketContainer {
  import opened Mbufs

  // ----- Rows of the flat list -----

  /** Row i holds the slots 32 * i to 32 * i + 31 as far as there are any. */
  function RowSize(total: nat, i: nat): nat {
    if 32 * i >= total then 0 else if total - 32 * i < 32 then total - 32 * i else 32
  }

  function Row(slots: seq<Pointer>, i: nat): (row: seq<Pointer>)
    ensures |row| == RowSize(|slots|, i)
  {
    if 32 * i >= |slots| then [] else slots[32 * i..32 * i + RowSize(|slots|, i)]
  }

  /** What the first rows give to the NIC, when it takes accept(i) buffers of row i. */
  function SentRows(slots: seq<Pointer>, rows: nat, accept: nat -> nat): seq<nat> {
    if rows == 0 then [] else
      var row := Live(Row(slots, rows - 1));
      SentRows(slots, rows - 1, accept) + row[..Min(accept(rows - 1), |row|)]
  }

  /** What they free because the NIC did not take it. */
  function FreedRows(slots: seq<Pointer>, rows: nat, accept: nat -> nat): seq<nat> {
    if rows == 0 then [] else
      var row := Live(Row(slots, rows - 1));
      FreedRows(slots, rows - 1, accept) + row[Min(accept(rows - 1), |row|)..]
  }

  /** The slots of the first rows. */
  function Front(slots: seq<Pointer>, rows: nat): seq<Pointer> {
    slots[..Min(32 * rows, |slots|)]
  }

  lemma {:induction false} FrontGrows(slots: seq<Pointer>, i: nat)
    requires 32 * i <= |slots|
    ensures Front(slots, i + 1) == Front(slots, i) + Row(slots, i)
    ensures Live(Front(slots, i + 1)) == Live(Front(slots, i)) + Live(Row(slots, i))
  {
    LiveConcat(Front(slots, i), Row(slots, i));
  }

  /** Every buffer of the whole is in one of the parts, as often as in the whole. */
  ghost predicate Splits(a: seq<nat>, b: seq<nat>, whole: seq<nat>) {
    multiset(a) + multiset(b) == multiset(whole)
  }

  lemma {:induction false} CutSplits(a: seq<nat>, b: seq<nat>, before: seq<nat>, row: seq<nat>, n: nat)
    requires n <= |row| && Splits(a, b, before)
    ensures Splits(a + row[..n], b + row[n..], before + row)
  {
    assert row == row[..n] + row[n..];
  }

  lemma {:induction false} NextRowSplits(slots: seq<Pointer>, i: nat, accept: nat -> nat, before: seq<nat>)
    requires Splits(SentRows(slots, i, accept), FreedRows(slots, i, accept), before)
    ensures Splits(SentRows(slots, i + 1, accept), FreedRows(slots, i + 1, accept), before + Live(Row(slots, i)))
  {
    hide Splits, Live, Row;
    var row := Live(Row(slots, i));
    CutSplits(SentRows(slots, i, accept), FreedRows(slots, i, accept), before, row, Min(accept(i), |row|));
  }

  lemma {:induction false} RowsConserve(slots: seq<Pointer>, rows: nat, accept: nat -> nat)
    requires rows > 0 ==> 32 * (rows - 1) <= |slots|
    ensures Splits(SentRows(slots, rows, accept), FreedRows(slots, rows, accept), Live(Front(slots, rows)))
  {
    if rows == 0 {
    } else {
      hide Splits, SentRows, FreedRows, Live, Row, Front;
      RowsConserve(slots, rows - 1, accept);
      FrontGrows(slots, rows - 1);
      NextRowSplits(slots, rows - 1, accept, Live(Front(slots, rows - 1)));
    }
  }

  lemma {:induction false} RowsInOrder(slots: seq<Pointer>, rows: nat, accept: nat -> nat)
    requires rows > 0 ==> 32 * (rows - 1) <= |slots|
    requires forall i: nat :: accept(i) >= 32
    ensures SentRows(slots, rows, accept) == Live(Front(slots, rows))
  {
    if rows == 0 {
    } else {
      hide Live, Front;
      RowsInOrder(slots, rows - 1, accept);
      FrontGrows(slots, rows - 1);
      assert accept(rows - 1) >= 32;
    }
  }

  /** The rows in use cover all slots. */
  predicate RowCount(total: nat, rows: nat) {
    if total == 0 then rows <= 1 else 32 * (rows - 1) < total <= 32 * rows
  }

  /** Every live buffer is accepted or freed exactly once; a NIC that takes everything
      gets all of them in insertion order. */
  lemma {:induction false} SendConserves(slots: seq<Pointer>, rows: nat, accept: nat -> nat)
    requires RowCount(|slots|, rows)
    ensures Splits(SentRows(slots, rows, accept), FreedRows(slots, rows, accept), Live(slots))
    ensures (forall i: nat :: accept(i) >= 32) ==> SentRows(slots, rows, accept) == Live(slots)
  {
    RowsConserve(slots, rows, accept);
    if forall i: nat :: accept(i) >= 32 { RowsInOrder(slots, rows, accept); }
    assert Front(slots, rows) == slots;
  }

  // ----- The arrays -----

  const ARRAYS := 30000

  ghost predicate Shape(a: array2<Pointer>) {
    a.Length0 == ARRAYS && a.Length1 == 32
  }

  /** The array holds the list, row by row. */
  ghost predicate Shows(a: array2<Pointer>, slots: seq<Pointer>)
    requires Shape(a)
    reads a
  {
    forall i, j :: 0 <= i < ARRAYS && 0 <= j < 32 && 32 * i + j < |slots| ==> a[i, j] == slots[32 * i + j]
  }

  lemma {:induction false} OneRow(n: nat)
    requires n <= 32
    ensures RowSize(n, 0) == n && forall i: nat :: RowSize(0, i) == 0 && (i > 0 ==> RowSize(n, i) == 0)
  {}

  lemma {:induction false} RowGrows(total: nat)
    ensures forall i: nat :: RowSize(total + 1, i) == RowSize(total, i) + if 32 * i <= total < 32 * i + 32 then 1 else 0
    ensures forall i: nat :: 32 * i <= total < 32 * i + 32 ==> RowSize(total, i) == total - 32 * i
  {}

  /** Nothing lies beyond the given length of each row. */
  ghost predicate NullBeyond(a: array2<Pointer>, rowLen: array<nat>)
    requires Shape(a) && rowLen.Length == ARRAYS
    reads a, rowLen
  {
    forall i, j :: 0 <= i < ARRAYS && rowLen[i] <= j < 32 ==> a[i, j] == Null
  }

  ghost predicate RowLens(rowLen: array<nat>, total: nat)
    requires rowLen.Length == ARRAYS
    reads rowLen
  {
    forall i :: 0 <= i < ARRAYS ==> rowLen[i] == RowSize(total, i)
  }

  /** The part of row i that is handed to the NIC. */
  function Burst(a: array2<Pointer>, i: nat, n: nat): (s: seq<Pointer>)
    requires i < a.Length0 && n <= a.Length1
    reads a
    ensures |s| == n && forall j :: 0 <= j < n ==> s[j] == a[i, j]
  {
    seq(n, j requires 0 <= j < n reads a => a[i, j])
  }

  function Coordinates(index: nat): (c: (nat, nat))
    ensures 32 * c.0 + c.1 == index && c.1 < 32
  {
    ((index - index % 32) / 32, index % 32)
  }

  lemma {:induction false} OneMore(ids: seq<nat>, n: nat, j: nat)
    requires n <= j < |ids|
    ensures ids[n..j + 1] == ids[n..j] + [ids[j]]
  {}

  lemma {:induction false} NoRows(slots: seq<Pointer>, accept: nat -> nat)
    ensures SentRows(slots, 0, accept) == [] && FreedRows(slots, 0, accept) == []
  {}

  lemma {:induction false} RowAppends(slots: seq<Pointer>, i: nat, accept: nat -> nat, sent: seq<nat>, freed: seq<nat>)
    ensures var row := Live(Row(slots, i));
      Min(accept(i), |row|) <= |row|
      && sent + SentRows(slots, i + 1, accept) == sent + SentRows(slots, i, accept) + row[..Min(accept(i), |row|)]
      && freed + FreedRows(slots, i + 1, accept) == freed + FreedRows(slots, i, accept) + row[Min(accept(i), |row|)..]
      && |SentRows(slots, i + 1, accept)| == |SentRows(slots, i, accept)| + Min(accept(i), |row|)
  {
    var row := Live(Row(slots, i));
    Associates(sent, SentRows(slots, i, accept), row[..Min(accept(i), |row|)]);
    Associates(freed, FreedRows(slots, i, accept), row[Min(accept(i), |row|)..]);
  }

  lemma {:induction false} NothingToSend(slots: seq<Pointer>, rows: nat, accept: nat -> nat)
    requires slots == [] && rows <= 1
    ensures SentRows(slots, rows, accept) == [] && FreedRows(slots, rows, accept) == []
  {}

  /** The packed row lists the live buffers of the row and nothing else. */
  ghost predicate PacksRow(packed: seq<Pointer>, row: seq<Pointer>) {
    Full(packed) && Live(packed) == Live(row)
  }

  lemma {:induction false} LiveOfMbufs(s: seq<Pointer>, ids: seq<nat>)
    requires |s| == |ids| && forall k :: 0 <= k < |s| ==> s[k] == Mbuf(ids[k])
    ensures Full(s) && Live(s) == ids
  {
    if s == [] {
    } else {
      LiveOfMbufs(s[1..], ids[1..]);
    }
  }

  /** The out-of-bounds exception, or a pointer. */
  datatype Result = Found(p: Pointer) | OutOfBounds

  class Container {
    const memory: Memory
    const mbufs: array2<Pointer>
    const infos: array2<Pointer>
    const rowLen: array<nat>
    var nbPolled: nat
    var nbTotal: nat
    var nbArrays: nat
    var nbDropped: nat
    ghost var slots: seq<Pointer>

    ghost predicate Built() {
      Shape(mbufs) && Shape(infos) && mbufs != infos && rowLen.Length == ARRAYS
    }

    ghost predicate Valid()
      reads this, mbufs, infos, rowLen
    {
      && Built()
      && nbTotal == |slots| <= 65535 && nbPolled <= nbTotal
      && RowCount(nbTotal, nbArrays)
      && RowLens(rowLen, nbTotal)
      && Shows(mbufs, slots) && Shows(infos, slots)
      && NullBeyond(mbufs, rowLen)
      && (nbDropped == 0 <==> Full(slots))
    }

    constructor (memory: Memory)
      ensures Valid() && slots == [] && nbPolled == 0 && nbArrays == 1 && this.memory == memory
      ensures fresh(mbufs) && fresh(infos) && fresh(rowLen)
    {
      this.memory := memory;
      mbufs := new Pointer[ARRAYS, 32]((i, j) => Null);
      infos := new Pointer[ARRAYS, 32]((i, j) => Null);
      rowLen := new nat[ARRAYS](i => 0);
      nbPolled, nbTotal, nbArrays, nbDropped, slots := 0, 0, 1, 0, [];
    }

    // ----- One slot at a time -----

    /** get_packet_at_index */
    method GetPacketAtIndex(index: nat) returns (r: Result)
      requires Valid()
      ensures r == if index < |slots| then Found(slots[index]) else OutOfBounds
    {
      if index >= nbTotal { return OutOfBounds; }
      var c := Coordinates(index);
      r := Found(infos[c.0, c.1]);
    }

    /** Both pointers of one slot become null. */
    method ClearSlot(index: nat, i: nat, j: nat)
      requires Built() && |slots| <= 32 * ARRAYS && index < |slots| && 32 * i + j == index && j < 32
      requires Shows(mbufs, slots) && Shows(infos, slots)
      requires NullBeyond(mbufs, rowLen)
      modifies this`slots, mbufs, infos
      ensures slots == old(slots)[index := Null]
      ensures Shows(mbufs, slots) && Shows(infos, slots)
      ensures NullBeyond(mbufs, rowLen)
    {
      infos[i, j] := Null;
      mbufs[i, j] := Null;
      slots := slots[index := Null];
    }

    /** drop_packet with the packet the caller holds: the slot may already be empty. */
    method DropPacket(index: nat) returns (ok: bool)
      requires Valid()
      modifies this`nbDropped, this`slots, mbufs, infos, memory`freed
      ensures Valid() && ok == (index < old(|slots|))
      ensures slots == if ok then old(slots)[index := Null] else old(slots)
      ensures memory.freed == old(memory.freed) + if ok then One(old(slots)[index]) else []
    {
      if index >= nbTotal { return false; }
      var c := Coordinates(index);
      if mbufs[c.0, c.1] != Null {
        memory.Free(mbufs[c.0, c.1]);
      }
      ClearSlot(index, c.0, c.1);
      nbDropped := nbDropped + 1;
      assert slots[index] == Null;
      ok := true;
    }

    /** take_packet: out of the container, but not freed; the counter goes up twice. */
    method TakePacket(index: nat) returns (r: Result)
      requires Valid()
      modifies this`nbDropped, this`slots, mbufs, infos
      ensures Valid()
      ensures r == if index < old(|slots|) then Found(old(slots)[index]) else OutOfBounds
      ensures slots == if r.Found? then old(slots)[index := Null] else old(slots)
    {
      if index >= nbTotal { return OutOfBounds; }
      var c := Coordinates(index);
      r := Found(infos[c.0, c.1]);
      ClearSlot(index, c.0, c.1);
      nbDropped := nbDropped + 1;
      nbDropped := nbDropped + 1;
      assert slots[index] == Null;
    }

    /** The first unused slot takes the pointer, and its row grows. */
    method AppendSlot(i: nat, j: nat, p: Pointer)
      requires Built() && 32 * i + j == |slots| < 65535 && j < 32
      requires Shows(mbufs, slots) && Shows(infos, slots)
      requires NullBeyond(mbufs, rowLen) && RowLens(rowLen, |slots|)
      modifies this`slots, mbufs, infos, rowLen
      ensures slots == old(slots) + [p]
      ensures Shows(mbufs, slots) && Shows(infos, slots)
      ensures NullBeyond(mbufs, rowLen) && RowLens(rowLen, |slots|)
    {
      hide RowSize;
      RowGrows(|slots|);
      mbufs[i, j] := p;
      infos[i, j] := p;
      rowLen[i] := rowLen[i] + 1;
      slots := slots + [p];
    }

    method Append(p: Pointer)
      requires Valid() && p.Mbuf? && |slots| < 65535
      modifies this`nbTotal, this`nbArrays, this`slots, mbufs, infos, rowLen
      ensures Valid() && slots == old(slots) + [p]
    {
      var c := Coordinates(nbTotal);
      AppendSlot(c.0, c.1, p);
      assert slots[..nbTotal] == old(slots);
      nbTotal := nbTotal + 1;
      if 32 * nbArrays < nbTotal {
        nbArrays := nbArrays + 1;
      }
    }

    /** add_packet */
    method AddPacket(p: Pointer) returns (index: nat)
      requires Valid() && p.Mbuf? && |slots| < 65535
      modifies this`nbTotal, this`nbArrays, this`slots, mbufs, infos, rowLen
      ensures Valid() && slots == old(slots) + [p] && index == old(|slots|)
    {
      Append(p);
      index := nbTotal - 1;
    }

    /** get_empty_packet */
    method GetEmptyPacket(blank: Header) returns (p: Pointer)
      requires Valid() && |slots| < 65535
      modifies this`nbTotal, this`nbArrays, this`slots, mbufs, infos, rowLen, memory`headers
      ensures Valid() && slots == old(slots) + [p] && p == Mbuf(old(|memory.headers|))
      ensures memory.headers == old(memory.headers) + [blank]
    {
      p := memory.Alloc(blank);
      Append(p);
    }

    // ----- Emptying -----

    /** Only the rows in use hold anything, each within its length. */
    ghost predicate Bounded()
      reads this`nbArrays, mbufs, rowLen
    {
      && Built() && nbArrays <= ARRAYS
      && (forall i :: 0 <= i < ARRAYS ==> rowLen[i] <= if i < nbArrays then 32 else 0)
      && NullBeyond(mbufs, rowLen)
    }

    method EmptyRow(i: nat)
      requires Built() && i < ARRAYS && rowLen[i] <= 32
      requires NullBeyond(mbufs, rowLen)
      modifies mbufs, infos, rowLen
      ensures rowLen[i] == 0 && forall k :: 0 <= k < ARRAYS && k != i ==> rowLen[k] == old(rowLen[k])
      ensures NullBeyond(mbufs, rowLen)
    {
      var len := rowLen[i];
      var j := 0;
      while j < len
        invariant 0 <= j <= len == rowLen[i] <= 32
        invariant forall k :: 0 <= k < j ==> mbufs[i, k] == Null
        invariant NullBeyond(mbufs, rowLen)
        modifies mbufs, infos
      {
        if infos[i, j] != Null {
          infos[i, j] := Null;
        }
        mbufs[i, j] := Null;
        j := j + 1;
      }
      rowLen[i] := 0;
    }

    /** empty_container: every buffer pointer is gone and every count is zero, also when
        the rows were shrunk before. */
    method EmptyContainer()
      requires Bounded()
      modifies this, mbufs, infos, rowLen
      ensures Valid() && slots == [] && nbPolled == 0 && nbTotal == 0 && nbArrays == 0 && nbDropped == 0
      ensures forall i, j :: 0 <= i < ARRAYS && 0 <= j < 32 ==> mbufs[i, j] == Null
    {
      var i := 0;
      while i < nbArrays
        invariant 0 <= i <= nbArrays <= ARRAYS && nbArrays == old(nbArrays)
        invariant forall k :: 0 <= k < i ==> rowLen[k] == 0
        invariant forall k :: i <= k < ARRAYS ==> rowLen[k] <= if k < nbArrays then 32 else 0
        invariant NullBeyond(mbufs, rowLen)
      {
        EmptyRow(i);
        i := i + 1;
      }
      nbPolled, nbTotal, nbDropped, nbArrays := 0, 0, 0, 0;
      slots := [];
    }

    // ----- Polling -----

    /** The NIC writes the first row; each buffer gets its packet info. */
    method PlaceBurst(burst: seq<Pointer>)
      requires Built() && slots == [] && |burst| <= 32
      requires RowLens(rowLen, 0) && NullBeyond(mbufs, rowLen)
      modifies this`slots, mbufs, infos, rowLen
      ensures slots == burst && RowLens(rowLen, |burst|) && NullBeyond(mbufs, rowLen)
      ensures Shows(mbufs, slots) && Shows(infos, slots)
    {
      OneRow(|burst|);
      hide RowSize;
      forall j | 0 <= j < |burst| { mbufs[0, j] := burst[j]; }
      forall j | 0 <= j < |burst| { infos[0, j] := mbufs[0, j]; }
      if |burst| > 0 {
        rowLen[0] := |burst|;
      }
      slots := burst;
    }

    /** poll_packets: whatever the container still held is overwritten, and the list is
        what the NIC delivered. */
    method PollPackets(arrived: seq<Header>) returns (polled: nat)
      requires Valid() && |arrived| <= 32
      modifies this, mbufs, infos, rowLen, memory`headers, memory`abandoned
      ensures Valid() && polled == nbPolled == |arrived|
      ensures slots == Fresh(old(|memory.headers|), |arrived|)
      ensures memory.headers == old(memory.headers) + arrived
      ensures memory.abandoned == old(memory.abandoned) + Live(old(slots))
    {
      memory.abandoned := memory.abandoned + Live(slots);
      EmptyContainer();
      var burst := memory.RxBurst(arrived);
      PlaceBurst(burst);
      nbPolled := |burst|;
      nbTotal := nbPolled;
      if nbPolled > 0 {
        nbArrays := 1;
      }
      polled := nbPolled;
    }

    // ----- Sending -----

    /** Row i is ready for the NIC: no null pointer, and the live buffers in order. */
    ghost predicate Packed(i: nat)
      requires Built() && i < ARRAYS
      reads this`slots, mbufs, rowLen
    {
      rowLen[i] <= 32 && PacksRow(Burst(mbufs, i, rowLen[i]), Row(slots, i))
    }

    /** A null pointer widens the gap; a live one moves to the gap's start. */
    method ShiftOne(i: nat, j: nat, skipped: nat) returns (s: nat)
      requires Built() && i < ARRAYS && skipped <= j < 32
      requires forall k :: j - skipped <= k < j ==> mbufs[i, k] == Null
      modifies mbufs
      ensures s == skipped + if old(mbufs[i, j]) == Null then 1 else 0
      ensures old(mbufs[i, j]) != Null ==> mbufs[i, j - skipped] == old(mbufs[i, j])
      ensures forall k :: j + 1 - s <= k < j + 1 ==> mbufs[i, k] == Null
      ensures forall k, l :: 0 <= k < ARRAYS && 0 <= l < 32 && !(k == i && j - skipped <= l <= j) ==>
        mbufs[k, l] == old(mbufs[k, l])
    {
      s := skipped;
      if mbufs[i, j] == Null {
        s := s + 1;
      } else if s > 0 {
        mbufs[i, j - s] := mbufs[i, j];
        mbufs[i, j] := Null;
      }
    }

    method ShiftRow(i: nat, len: nat) returns (skipped: nat)
      requires Built() && i < ARRAYS && len <= 32
      modifies mbufs
      ensures skipped == len - |Live(old(Burst(mbufs, i, len)))| <= len
      ensures forall k :: 0 <= k < len - skipped ==> mbufs[i, k] == Mbuf(Live(old(Burst(mbufs, i, len)))[k])
      ensures forall k :: len - skipped <= k < len ==> mbufs[i, k] == Null
      ensures forall k :: len <= k < 32 ==> mbufs[i, k] == old(mbufs[i, k])
      ensures forall k, l :: 0 <= k < ARRAYS && 0 <= l < 32 && k != i ==> mbufs[k, l] == old(mbufs[k, l])
    {
      ghost var row := Burst(mbufs, i, len);
      ghost var out: seq<nat> := [];
      assert Live(row[..0]) == out;
      hide Live;
      skipped := 0;
      var j := 0;
      while j < len
        invariant skipped <= j <= len && j - skipped == |out| && out == Live(row[..j])
        invariant forall k :: 0 <= k < |out| ==> mbufs[i, k] == Mbuf(out[k])
        invariant forall k :: |out| <= k < j ==> mbufs[i, k] == Null
        invariant forall k :: j <= k < 32 ==> mbufs[i, k] == old(mbufs[i, k])
        invariant forall k, l :: 0 <= k < ARRAYS && 0 <= l < 32 && k != i ==> mbufs[k, l] == old(mbufs[k, l])
      {
        LiveSplit(row, j);
        assert row[j] == mbufs[i, j];
        out := out + Live([row[j]]);
        skipped := ShiftOne(i, j, skipped);
        j := j + 1;
      }
      assert row[..len] == row;
    }

    /** One row of reorder_mbuf_arrays: live pointers move left over the null ones. */
    method ReorderRow(i: nat)
      requires Built() && i < ARRAYS && rowLen[i] <= 32
      modifies mbufs, rowLen
      ensures rowLen[i] <= old(rowLen[i])
      ensures PacksRow(Burst(mbufs, i, rowLen[i]), old(Burst(mbufs, i, rowLen[i])))
      ensures forall j :: rowLen[i] <= j < old(rowLen[i]) ==> mbufs[i, j] == Null
      ensures forall j :: old(rowLen[i]) <= j < 32 ==> mbufs[i, j] == old(mbufs[i, j])
      ensures forall k, j :: 0 <= k < ARRAYS && 0 <= j < 32 && k != i ==> mbufs[k, j] == old(mbufs[k, j])
      ensures forall k :: 0 <= k < ARRAYS && k != i ==> rowLen[k] == old(rowLen[k])
    {
      ghost var row := Burst(mbufs, i, rowLen[i]);
      var skipped := ShiftRow(i, rowLen[i]);
      rowLen[i] := rowLen[i] - skipped;
      LiveOfMbufs(Burst(mbufs, i, rowLen[i]), Live(row));
    }

    /** One more row packed, the rows before and after it as they were. */
    method ReorderNext(i: nat)
      requires Bounded() && i < nbArrays
      requires forall k :: 0 <= k < i ==> Packed(k)
      requires forall k :: i <= k < nbArrays ==> rowLen[k] <= 32 && Burst(mbufs, k, rowLen[k]) == Row(slots, k)
      modifies mbufs, rowLen
      ensures Bounded()
      ensures forall k :: 0 <= k <= i ==> Packed(k)
      ensures forall k :: i < k < nbArrays ==> rowLen[k] <= 32 && Burst(mbufs, k, rowLen[k]) == Row(slots, k)
    {
      hide PacksRow;
      ReorderRow(i);
      forall k | 0 <= k < nbArrays && k != i
        ensures Burst(mbufs, k, rowLen[k]) == old(Burst(mbufs, k, rowLen[k]))
      {}
      forall k | 0 <= k <= i ensures Packed(k) {
        if k == i { assert old(Burst(mbufs, i, rowLen[i])) == Row(slots, i); } else { assert old(Packed(k)); }
      }
    }

    /** In a valid container every row shows its part of the list. */
    lemma {:induction false} ValidRows()
      requires Valid()
      ensures Bounded()
      ensures forall k :: 0 <= k < nbArrays ==> rowLen[k] <= 32 && Burst(mbufs, k, rowLen[k]) == Row(slots, k)
      ensures nbTotal == 0 || nbDropped == 0 ==> forall k :: 0 <= k < nbArrays ==> Packed(k)
    {
      forall k | 0 <= k < nbArrays
        ensures rowLen[k] <= 32 && Burst(mbufs, k, rowLen[k]) == Row(slots, k)
        ensures nbTotal == 0 || nbDropped == 0 ==> Packed(k)
      {
        assert |Burst(mbufs, k, rowLen[k])| == |Row(slots, k)|;
      }
    }

    /** reorder_mbuf_arrays */
    method ReorderMbufArrays()
      requires Valid()
      modifies mbufs, rowLen
      ensures Bounded() && forall k :: 0 <= k < nbArrays ==> Packed(k)
    {
      if nbTotal == 0 {
        ValidRows();
        return;
      }
      ValidRows();
      var i := 0;
      while i < nbArrays
        invariant 0 <= i <= nbArrays && Bounded()
        invariant forall k :: 0 <= k < i ==> Packed(k)
        invariant forall k :: i <= k < nbArrays ==> rowLen[k] <= 32 && Burst(mbufs, k, rowLen[k]) == Row(slots, k)
      {
        ReorderNext(i);
        i := i + 1;
      }
    }

    /** One burst, and a free for every buffer the NIC did not take. */
    method SendRow(i: nat, accept: nat) returns (n: nat)
      requires Bounded() && i < nbArrays && Packed(i)
      modifies memory`sent, memory`freed
      ensures var row := Live(Row(slots, i)); n == Min(accept, |row|) && n <= |row|
      ensures memory.sent == old(memory.sent) + Live(Row(slots, i))[..n]
      ensures memory.freed == old(memory.freed) + Live(Row(slots, i))[n..]
    {
      var len := rowLen[i];
      var burst := Burst(mbufs, i, len);
      LiveFull(burst);
      ghost var ids := Live(burst);
      assert ids == Live(Row(slots, i));
      n := memory.TxBurst(burst, accept);
      hide Live, Row, Min, PacksRow;
      var j := n;
      while j < len
        invariant n <= j <= len
        invariant memory.freed == old(memory.freed) + ids[n..j]
        modifies memory`freed
      {
        memory.Free(mbufs[i, j]);
        OneMore(ids, n, j);
        j := j + 1;
      }
      assert ids[n..len] == ids[n..];
    }

    method SendBursts(accept: nat -> nat) returns (sum: nat)
      requires Bounded() && forall k :: 0 <= k < nbArrays ==> Packed(k)
      modifies memory`sent, memory`freed
      ensures memory.sent == old(memory.sent) + SentRows(slots, nbArrays, accept)
      ensures memory.freed == old(memory.freed) + FreedRows(slots, nbArrays, accept)
      ensures sum == |SentRows(slots, nbArrays, accept)|
    {
      hide SentRows, FreedRows, Live, Row, PacksRow, Packed, Min;
      NoRows(slots, accept);
      sum := 0;
      var i := 0;
      while i < nbArrays
        invariant 0 <= i <= nbArrays && (forall k :: 0 <= k < nbArrays ==> Packed(k))
        invariant memory.sent == old(memory.sent) + SentRows(slots, i, accept)
        invariant memory.freed == old(memory.freed) + FreedRows(slots, i, accept)
        invariant sum == |SentRows(slots, i, accept)|
        modifies memory`sent, memory`freed
      {
        var n := SendRow(i, accept(i));
        RowAppends(slots, i, accept, old(memory.sent), old(memory.freed));
        sum := sum + n;
        i := i + 1;
      }
    }

    /** send_packets: every live buffer is offered to the NIC, row by row and in order;
        what the NIC does not take is freed, and nothing stays in the container. */
    method SendPackets(accept: nat -> nat) returns (sum: nat)
      requires Valid()
      modifies this, mbufs, infos, rowLen, memory`sent, memory`freed
      ensures Valid() && slots == [] && forall i, j :: 0 <= i < ARRAYS && 0 <= j < 32 ==> mbufs[i, j] == Null
      ensures memory.sent == old(memory.sent) + SentRows(old(slots), old(nbArrays), accept)
      ensures memory.freed == old(memory.freed) + FreedRows(old(slots), old(nbArrays), accept)
      ensures sum == |SentRows(old(slots), old(nbArrays), accept)|
    {
      ValidRows();
      if nbTotal > 0 {
        if nbDropped != 0 {
          ReorderMbufArrays();
        }
        sum := SendBursts(accept);
      } else {
        NothingToSend(slots, nbArrays, accept);
        sum := 0;
      }
      EmptyContainer();
    }
  }
}
