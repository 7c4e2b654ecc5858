/**
  The invariant of the distributor: flows are held by one worker at a time,
  backlogs hold packets of their worker's flow, and per flow the packets handed
  out and those still queued are, in this order, the packets submitted.
*/
module DistInv {
  import opened DistState

  // ------------------------------------------------------------------------ own data

  /** No two workers are in flight with the same tag. */
  ghost predicate TagsDiffer(d: Priv) {
    forall a, b, t :: InFlight(d, a, t) && InFlight(d, b, t) ==> a == b
  }

  ghost predicate AllTagged(q: seq<nat>, t: nat, tag: Tag) { forall p :: p in q ==> tag(p) == t }

  /**
    A backlog belongs to a worker in flight and holds packets of its flow; only a worker being shut down has a stale
    one.
  */
  ghost predicate BacklogOk(d: Priv, w: nat, stale: set<nat>, tag: Tag)
    requires w < |d.tags| == |d.mask| == |d.backlog|
  {
    && |d.backlog[w]| <= BACKLOG_SIZE && 0 !in d.backlog[w]
    && (d.mask[w] ==> AllTagged(d.backlog[w], d.tags[w], tag))
    && (!d.mask[w] && w !in stale ==> d.backlog[w] == [])
  }

  ghost predicate PrivOk(d: Priv, stale: set<nat>, tag: Tag) {
    && |d.tags| == |d.mask| == |d.backlog|
    && TagsDiffer(d)
    && forall w :: 0 <= w < |d.backlog| ==> BacklogOk(d, w, stale, tag)
  }

  // --------------------------------------------------------------------- shared words

  /** What a shared word says about the worker. */
  ghost predicate BufOk(d: Priv, b: Buf, retired: bool, w: nat, stale: set<nat>, tag: Tag)
    requires w < |d.tags| == |d.mask|
  {
    && (b.flag == NoBuf && b.ptr != 0 ==> d.mask[w] && tag(b.ptr) == d.tags[w] && !retired)
    && (b.flag == NoBuf && b.ptr == 0 ==> !d.mask[w])
    && (retired ==> b.flag != Get) && (b.flag == Ret ==> retired)
    && (w in stale ==> retired && b == Buf(NoBuf, 0))
  }

  ghost predicate BufsOk(s: State, tag: Tag)
    requires Sized(s)
  {
    forall w :: 0 <= w < |s.bufs| ==> BufOk(s.d, s.bufs[w], s.retired[w], w, Stale(s.stack), tag)
  }

  /** Workers whose backlog is being distributed again. */
  ghost function Stale(stack: seq<Frame>): set<nat> {
    set i | 0 <= i < |stack| && stack[i].pc == Closing :: stack[i].wkr
  }

  // ----------------------------------------------------------------------------- calls

  /** Packets a call has still to place. */
  function Pending(f: Frame): seq<nat>
    requires f.idx <= |f.mbufs|
  {
    (if f.next != 0 then [f.next] else []) + f.mbufs[f.idx..]
  }

  ghost predicate FramesOk(s: State)
    requires Sized(s)
  {
    && (forall i :: 0 <= i < |s.stack| ==> FrameSane(s.stack[i], |s.bufs|))
    && (forall i :: 0 <= i < |s.stack| ==> (s.stack[i].pc == Closing <==> i < |s.stack| - 1))
  }

  /** A flagged word that was read has not changed since. */
  ghost predicate LatchOk(s: State)
    requires Sized(s)
  {
    s.stack != [] ==>
      var f := TopOf(s);
      (f.pc.Latched? || f.pc.Ready?) && f.pc.data.flag != NoBuf && f.wkr < |s.bufs| ==> s.bufs[f.wkr] == f.pc.data
  }

  ghost predicate NoneTagged(q: seq<nat>, t: nat, tag: Tag) { forall p :: p in q ==> tag(p) != t }

  /** The flow of a pending packet is not in flight, nor is it among the packets of inner calls. */
  ghost predicate NextOk(d: Priv, stack: seq<Frame>, i: nat, tag: Tag)
    requires i < |stack| && forall k :: 0 <= k < |stack| ==> stack[k].idx <= |stack[k].mbufs|
  {
    stack[i].next != 0 ==>
      && (forall w: nat :: !InFlight(d, w, tag(stack[i].next)))
      && forall k :: i < k < |stack| ==> NoneTagged(Pending(stack[k]), tag(stack[i].next), tag)
  }

  ghost predicate AllNextOk(s: State, tag: Tag)
    requires Sized(s) && FramesOk(s)
  {
    forall i :: 0 <= i < |s.stack| ==> NextOk(s.d, s.stack, i, tag)
  }

  // ------------------------------------------------------------------------- the flows

  /** The packets of `q` with tag `t`, in order. */
  ghost function OfTag(q: seq<nat>, t: nat, tag: Tag): seq<nat> {
    if q == [] then [] else OfTag(q[..|q| - 1], t, tag) + if tag(q[|q| - 1]) == t then [q[|q| - 1]] else []
  }

  /** All packets that calls have still to place, innermost call first. */
  ghost function AllPending(stack: seq<Frame>): seq<nat>
    requires forall i :: 0 <= i < |stack| ==> stack[i].idx <= |stack[i].mbufs|
  {
    if stack == [] then [] else Pending(stack[|stack| - 1]) + AllPending(stack[..|stack| - 1])
  }

  /** The backlog of the worker that has flow `t`. */
  ghost function Live(d: Priv, t: nat): seq<nat>
    requires |d.tags| == |d.backlog|
  {
    var w := Worker(d, t);
    if w < |d.tags| then d.backlog[w] else []
  }

  /** Per flow: handed out, queued for its worker, and not yet placed, in the order of submission. */
  ghost predicate InOrder(s: State, t: nat, tag: Tag)
    requires Sized(s) && FramesOk(s)
  {
    OfTag(s.out, t, tag) + Live(s.d, t) + OfTag(AllPending(s.stack), t, tag) == OfTag(s.sub, t, tag)
  }

  ghost function HeldBy(b: Buf, p: nat): nat { if b.flag == NoBuf && b.ptr == p then 1 else 0 }

  /** How many workers hold packet `p`. */
  ghost function Held(bufs: seq<Buf>, p: nat): nat {
    if bufs == [] then 0 else Held(bufs[..|bufs| - 1], p) + HeldBy(bufs[|bufs| - 1], p)
  }

  /** A packet handed out is held by one worker or finished. */
  ghost predicate Conserved(s: State) {
    forall p: nat :: p != 0 ==> multiset(s.out)[p] == Held(s.bufs, p) + multiset(s.fin)[p]
  }

  ghost predicate Inv(s: State, tag: Tag) {
    && Sized(s) && |s.bufs| > 0 && FramesOk(s) && LatchOk(s)
    && PrivOk(s.d, Stale(s.stack), tag) && BufsOk(s, tag) && AllNextOk(s, tag)
    && (forall t: nat :: InOrder(s, t, tag)) && Conserved(s)
  }

  // ---------------------------------------------------------------------- about sequences

  lemma {:induction false} OfTagConcat(a: seq<nat>, b: seq<nat>, t: nat, tag: Tag)
    ensures OfTag(a + b, t, tag) == OfTag(a, t, tag) + OfTag(b, t, tag)
  {
    if b == [] {
      assert a + b == a;
    } else {
      var n := |b| - 1;
      assert (a + b)[..|a + b| - 1] == a + b[..n];
      OfTagConcat(a, b[..n], t, tag);
    }
  }

  lemma OfTagOne(p: nat, t: nat, tag: Tag)
    ensures OfTag([p], t, tag) == if tag(p) == t then [p] else []
  {
    assert [p][..0] == [];
    assert OfTag([p][..0], t, tag) == [];
  }

  lemma {:induction false} OfTagAll(q: seq<nat>, t: nat, tag: Tag)
    requires AllTagged(q, t, tag)
    ensures OfTag(q, t, tag) == q
  {
    if q != [] {
      OfTagAll(q[..|q| - 1], t, tag);
    }
  }

  lemma {:induction false} OfTagNone(q: seq<nat>, t: nat, tag: Tag)
    requires NoneTagged(q, t, tag)
    ensures OfTag(q, t, tag) == []
  {
    if q != [] {
      OfTagNone(q[..|q| - 1], t, tag);
    }
  }

  lemma {:induction false} HeldUpdate(bufs: seq<Buf>, w: nat, b: Buf, p: nat)
    requires w < |bufs|
    ensures Held(bufs[w := b], p) == Held(bufs, p) + HeldBy(b, p) - HeldBy(bufs[w], p)
  {
    var n := |bufs| - 1;
    if w == n {
      assert bufs[w := b][..n] == bufs[..n];
    } else {
      assert bufs[w := b][..n] == bufs[..n][w := b];
      HeldUpdate(bufs[..n], w, b, p);
    }
  }

  // ---------------------------------------------------------------------- about own data

  lemma WorkerIs(d: Priv, w: nat, t: nat)
    requires TagsDiffer(d) && InFlight(d, w, t)
    ensures Worker(d, t) == w
  {
  }

  /** The worker of a flow depends only on who is in flight with it. */
  lemma SameWorker(d: Priv, d': Priv, t: nat)
    requires |d.tags| == |d'.tags| && forall w: nat :: InFlight(d, w, t) <==> InFlight(d', w, t)
    ensures Worker(d, t) == Worker(d', t)
  {
    var a, b := Worker(d, t), Worker(d', t);
    assert a < |d.tags| ==> InFlight(d', a, t);
    assert b < |d.tags| ==> InFlight(d, b, t);
  }
}
