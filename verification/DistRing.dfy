/**
  The rings of the distributor and its search for the worker of a flow.

  `start` counts modulo 2^32 and is reduced to an index by masking, as in C.
*/
module DistRing {
  import opened DistState

  const UINT: nat := 0x1_0000_0000
  const BACKLOG: nat := 8
  const RETURNS: nat := 128
  const RETURNS_MAX: nat := 127

  function Slot(start: nat, i: nat, size: nat): nat
    requires size > 0
  {
    (start + i) % size
  }

  lemma WrapBacklog(x: nat, i: nat)
    ensures (x % UINT + i) % BACKLOG == (x + i) % BACKLOG
  {
    var q := x / UINT;
    assert x % UINT == x - 8 * (0x2000_0000 * q);
  }

  lemma WrapReturns(x: nat, i: nat)
    ensures (x % UINT + i) % RETURNS == (x + i) % RETURNS
  {
    var q := x / UINT;
    assert x % UINT == x - 128 * (0x200_0000 * q);
  }

  /** Wrapping a counter does not move the ring, because the size of the ring divides 2^32. */
  lemma WrapSlot(start: nat, k: nat, i: nat, size: nat)
    requires size == BACKLOG || size == RETURNS
    ensures Slot((start + k) % UINT, i, size) == Slot(start, k + i, size)
  {
    if size == BACKLOG {
      WrapBacklog(start + k, i);
    } else {
      WrapReturns(start + k, i);
    }
  }

  lemma SlotsDiffer(start: nat, i: nat, j: nat, size: nat)
    requires i < j < size && (size == BACKLOG || size == RETURNS)
    ensures Slot(start, i, size) != Slot(start, j, size)
  {
  }

  /** The packets in a ring, oldest first. */
  function Ring(a: seq<nat>, start: nat, count: nat): (r: seq<nat>)
    requires |a| > 0
    ensures |r| == count && forall i :: 0 <= i < count ==> r[i] == a[Slot(start, i, |a|)]
  {
    seq(count, (i: nat) => a[Slot(start, i, |a|)])
  }

  /** Writing behind the last packet. */
  lemma RingPut(a: seq<nat>, start: nat, count: nat, p: nat)
    requires (|a| == BACKLOG || |a| == RETURNS) && count < |a|
    ensures var a' := a[Slot(start, count, |a|) := p];
      Ring(a', start, count) == Ring(a, start, count) && Ring(a', start, count + 1) == Ring(a, start, count) + [p]
  {
    var a' := a[Slot(start, count, |a|) := p];
    forall i: nat | i < count ensures a'[Slot(start, i, |a|)] == a[Slot(start, i, |a|)] {
      SlotsDiffer(start, i, count, |a|);
    }
  }

  /** Moving the start forward drops the oldest packets. */
  lemma RingDrop(a: seq<nat>, start: nat, count: nat, k: nat)
    requires (|a| == BACKLOG || |a| == RETURNS) && k <= count
    ensures Ring(a, (start + k) % UINT, count - k) == Ring(a, start, count)[k..]
  {
    forall i: nat | i < count - k ensures a[Slot((start + k) % UINT, i, |a|)] == Ring(a, start, count)[k..][i] {
      WrapSlot(start, k, i, |a|);
    }
  }

  // ------------------------------------------------------------------------ the backlog

  class Backlog {
    var start: nat
    var count: nat
    const pkts: array<nat>

    ghost predicate Valid()
      reads this
    {
      pkts.Length == BACKLOG && start < UINT && count <= BACKLOG
    }

    ghost function Contents(): seq<nat>
      requires Valid()
      reads this, pkts
    {
      Ring(pkts[..], start, count)
    }

    constructor ()
      ensures Valid() && fresh(pkts) && Contents() == []
    {
      pkts := new nat[BACKLOG];
      start, count := 0, 0;
    }

    /** `add_to_backlog`. */
    method Add(item: nat) returns (ok: bool)
      requires Valid()
      modifies this, pkts
      ensures Valid() && (ok <==> old(|Contents()|) < BACKLOG)
      ensures Contents() == if ok then old(Contents()) + [item] else old(Contents())
    {
      if count == BACKLOG {
        return false;
      }
      RingPut(pkts[..], start, count, item);
      ghost var after := pkts[..][Slot(start, count, BACKLOG) := item];
      pkts[(start + count) % BACKLOG] := item;
      assert pkts[..] == after;
      count := count + 1;
      return true;
    }

    /** `backlog_pop`. */
    method Pop() returns (p: nat)
      requires Valid() && Contents() != []
      modifies this
      ensures Valid() && old(Contents()) == [p] + Contents()
    {
      RingDrop(pkts[..], start, count, 1);
      count := count - 1;
      p := pkts[start % BACKLOG];
      start := (start + 1) % UINT;
    }

    /** The copy that `handle_worker_shutdown` makes before the nested call. */
    method Copy() returns (q: seq<nat>)
      requires Valid()
      ensures q == Contents()
    {
      q := [];
      for i := 0 to count
        invariant q == Contents()[..i]
      {
        q := q + [pkts[(start + i) % BACKLOG]];
      }
    }
  }

  // ------------------------------------------------------------------- returned packets

  /** The newest packets, as many as the ring can hold. */
  function Newest(q: seq<nat>): (r: seq<nat>)
    ensures |r| <= RETURNS_MAX
  {
    if |q| <= RETURNS_MAX then q else q[|q| - RETURNS_MAX..]
  }

  /** The three cases of storing: nothing, one more, or one in place of the oldest. */
  lemma StoreOk(a: seq<nat>, start: nat, count: nat, p: nat)
    requires |a| == RETURNS && count <= RETURNS_MAX && start < UINT
    ensures var a', q := a[Slot(start, count, RETURNS) := p], Ring(a, start, count);
      && Ring(a', start, count) == q && start % UINT == start
      && (count < RETURNS_MAX ==> Ring(a', start, count + 1) == Newest(q + [p]))
      && (count == RETURNS_MAX ==> Ring(a', (start + 1) % UINT, count) == Newest(q + [p]))
  {
    RingPut(a, start, count, p);
    var a' := a[Slot(start, count, RETURNS) := p];
    RingDrop(a', start, count + 1, 1);
  }

  class ReturnedPkts {
    var start: nat
    var count: nat
    const mbufs: array<nat>

    ghost predicate Valid()
      reads this
    {
      mbufs.Length == RETURNS && start < UINT && count <= RETURNS_MAX
    }

    ghost function Contents(): seq<nat>
      requires Valid()
      reads this, mbufs
    {
      Ring(mbufs[..], start, count)
    }

    constructor ()
      ensures Valid() && fresh(mbufs) && Contents() == []
    {
      mbufs := new nat[RETURNS];
      start, count := 0, 0;
    }

    /** `store_return`: the slot is written in any case, but only a packet is kept, in place of the oldest when full. */
    method Store(oldbuf: nat)
      requires Valid()
      modifies this, mbufs
      ensures Valid() && Contents() == if oldbuf == 0 then old(Contents()) else Newest(old(Contents()) + [oldbuf])
    {
      hide Ring, Newest;
      StoreOk(mbufs[..], start, count, oldbuf);
      ghost var after := mbufs[..][Slot(start, count, RETURNS) := oldbuf];
      mbufs[(start + count) % RETURNS] := oldbuf;
      assert mbufs[..] == after;
      var full := count == RETURNS_MAX;
      start := (start + if full && oldbuf != 0 then 1 else 0) % UINT;
      count := count + if !full && oldbuf != 0 then 1 else 0;
    }

    /** `rte_distributor_returned_pkts`. */
    method Take(max: nat) returns (pkts: seq<nat>)
      requires Valid()
      modifies this
      ensures Valid() && old(Contents()) == pkts + Contents()
      ensures |pkts| == if max < old(|Contents()|) then max else old(|Contents()|)
    {
      var n := if max < count then max else count;
      RingDrop(mbufs[..], start, count, n);
      pkts := [];
      for i := 0 to n
        invariant pkts == Contents()[..i]
      {
        pkts := pkts + [mbufs[(start + i) % RETURNS]];
      }
      start := (start + n) % UINT;
      count := count - n;
    }

    /** `rte_distributor_clear_returns`. */
    method Clear()
      requires Valid()
      modifies this
      ensures Valid() && Contents() == []
    {
      start, count := 0, 0;
    }
  }

  // -------------------------------------------------------------------- the match scan

  function BitsFrom(lo: nat, hi: nat): (bits: set<nat>)
    ensures forall b: nat :: b in bits <==> lo <= b < hi
    decreases hi
  {
    if hi <= lo then {} else BitsFrom(lo, hi - 1) + {hi - 1}
  }

  /** The bits that the shift of a 32-bit one by `i` leaves in a 64-bit word: a set sign bit is extended. */
  function ShiftBits(i: nat): (bits: set<nat>)
    requires i < 32
  {
    if i < 31 then {i} else BitsFrom(31, 64)
  }

  /** The scan of `rte_distributor_process` for the worker that has a flow, with bit sets for words. */
  method Scan(d: Priv, bitmask: set<nat>, tag: nat) returns (w: nat)
    requires |d.tags| == |d.mask| <= 32
    requires forall b: nat :: b in bitmask <==> b < |d.mask| && d.mask[b]
    ensures w == Worker(d, tag)
  {
    var m: set<nat> := {};
    for i := 0 to |d.tags|
      invariant forall b: nat :: b < |d.tags| ==> (b in m <==> b < i && d.tags[b] == tag)
    {
      if d.tags[i] == tag {
        m := m + ShiftBits(i);
      }
    }
    m := m * bitmask;
    assert forall b: nat :: b in m <==> InFlight(d, b, tag);
    w := 0;
    while w < |d.tags| && w !in m
      invariant w <= |d.tags| && forall b: nat :: b < w ==> b !in m
    {
      w := w + 1;
    }
  }

  /**
    Bit `b` is set by the worker loop of the scan; what a shift by 32 or more sets is not defined, `wide` says what.
  */
  ghost predicate Set(d: Priv, t: nat, wide: nat -> set<nat>, b: nat) {
    exists i: nat :: i < |d.tags| && d.tags[i] == t && b in if i < 32 then ShiftBits(i) else wide(i)
  }

  /** The bit mask says who is in flight, and a worker that is not has no tag. */
  ghost predicate Mirrors(d: Priv, bitmask: set<nat>) {
    && |d.tags| == |d.mask| && (forall b: nat :: b in bitmask <==> b < |d.mask| && d.mask[b])
    && Cleared(d)
  }

  /** The lowest bit that remains is that of worker `w`; no bit remains when `w` is the number of workers. */
  ghost predicate Finds(d: Priv, bitmask: set<nat>, t: nat, wide: nat -> set<nat>, w: nat) {
    && w <= |d.tags| && (w < |d.tags| ==> Set(d, t, wide, w) && w in bitmask)
    && forall b: nat :: b < w ==> !(Set(d, t, wide, b) && b in bitmask)
  }

  lemma FewWorkers(d: Priv, bitmask: set<nat>, t: nat, wide: nat -> set<nat>)
    requires |d.tags| <= 32 && Mirrors(d, bitmask)
    ensures Finds(d, bitmask, t, wide, Worker(d, t))
  {
    forall b: nat ensures Set(d, t, wide, b) && b in bitmask <==> InFlight(d, b, t) {
      if InFlight(d, b, t) {
        assert b in ShiftBits(b);
      }
    }
  }

  /**
    Of more than 32 workers: worker 31 is off, so that a packet of flow 0 is taken for one of worker 32, which has flow
    1.
  */
  lemma ManyWorkers(n: nat, wide: nat -> set<nat>) returns (d: Priv, bitmask: set<nat>)
    requires 32 < n
    ensures |d.tags| == n && Mirrors(d, bitmask)
    ensures Finds(d, bitmask, 0, wide, 32) && InFlight(d, 32, 1) && Worker(d, 0) == n
  {
    d := Priv(seq(n, i => if i == 32 then 1 else 0), seq(n, i => i == 32), seq(n, i => []));
    bitmask := {32};
    assert d.tags[31] == 0 && 32 in ShiftBits(31);
    assert Set(d, 0, wide, 32);
  }

  /** The scan finds the right worker in every state of `n` workers if and only if there are at most 32. */
  lemma ScanExactIff(n: nat, wide: nat -> set<nat>)
    ensures n <= 32 <==>
      forall d: Priv, bitmask: set<nat>, t: nat :: |d.tags| == n && Mirrors(d, bitmask) ==>
        Finds(d, bitmask, t, wide, Worker(d, t))
  {
    if n <= 32 {
      forall d: Priv, bitmask: set<nat>, t: nat | |d.tags| == n && Mirrors(d, bitmask) ensures Finds(d, bitmask, t,
        wide, Worker(d, t)) {
        FewWorkers(d, bitmask, t, wide);
      }
    } else {
      var d, bitmask := ManyWorkers(n, wide);
      assert !Finds(d, bitmask, 0, wide, Worker(d, 0));
    }
  }

  // ------------------------------------------------- tags of workers that are not in flight

  /** A worker that is not in flight has no tag. */
  ghost predicate Cleared(d: Priv) { |d.tags| == |d.mask| && forall w :: 0 <= w < |d.mask| && !d.mask[w] ==>
      d.tags[w] == 0 }

  lemma ClearedStep(s: State, e: Event, s': State, tag: Tag)
    requires Cleared(s.d) && CodeStep(s, e, s', tag)
    ensures Cleared(s'.d)
  {
  }

  /** In every state of every run, whatever the workers do. */
  lemma {:induction false} AlwaysCleared(run: seq<State>, events: seq<Event>, n: nat, tag: Tag, i: nat)
    requires Joined(run, events, tag) && run[0] == Init(n) && i < |run|
    ensures Cleared(run[i].d)
  {
    if i > 0 {
      AlwaysCleared(run, events, n, tag, i - 1);
      assert CodeStep(run[i - 1], events[i - 1], run[i], tag);
      ClearedStep(run[i - 1], events[i - 1], run[i], tag);
    }
  }
}
