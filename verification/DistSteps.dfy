/**
  Every step of the distributor and of the workers keeps the invariant.
*/
module DistSteps {
  import opened DistState
  import opened DistInv

  // ------------------------------------------------------------------- the stack of calls

  ghost function Below(s: State): seq<Frame>
    requires s.stack != []
  {
    s.stack[..|s.stack| - 1]
  }

  lemma StaleTop(s: State, f: Frame)
    requires s.stack != [] && TopOf(s).pc != Closing && f.pc != Closing
    ensures Stale(s.stack[|s.stack| - 1 := f]) == Stale(s.stack)
  {
    var n := |s.stack| - 1;
    var stack' := s.stack[n := f];
    forall w ensures w in Stale(stack') <==> w in Stale(s.stack) {
      if w in Stale(s.stack) {
        var i :| 0 <= i < |s.stack| && s.stack[i].pc == Closing && s.stack[i].wkr == w;
        assert stack'[i].pc == Closing && stack'[i].wkr == w;
      }
      if w in Stale(stack') {
        var i :| 0 <= i < |stack'| && stack'[i].pc == Closing && stack'[i].wkr == w;
        assert s.stack[i].pc == Closing && s.stack[i].wkr == w;
      }
    }
  }

  ghost predicate Indexed(stack: seq<Frame>) { forall i :: 0 <= i < |stack| ==> stack[i].idx <= |stack[i].mbufs| }

  lemma PendingTop(stack: seq<Frame>, f: Frame, t: nat, tag: Tag)
    requires stack != [] && Indexed(stack) && f.idx <= |f.mbufs|
    ensures OfTag(AllPending(stack[|stack| - 1 := f]), t, tag)
         == OfTag(Pending(f), t, tag) + OfTag(AllPending(stack[..|stack| - 1]), t, tag)
  {
    var n := |stack| - 1;
    assert stack[n := f][..n] == stack[..n];
    OfTagConcat(Pending(f), AllPending(stack[..n]), t, tag);
  }

  /** Order per flow, seen from the innermost call. */
  lemma OrderAtTop(s: State, t: nat, tag: Tag)
    requires Sized(s) && FramesOk(s) && InOrder(s, t, tag) && s.stack != []
    ensures OfTag(s.sub, t, tag) ==
      OfTag(s.out, t, tag) + Live(s.d, t) + (OfTag(Pending(TopOf(s)), t, tag) + OfTag(AllPending(Below(s)), t, tag))
  {
    hide OfTag, Live, AllPending, Pending;
    assert s.stack[|s.stack| - 1 := TopOf(s)] == s.stack;
    PendingTop(s.stack, TopOf(s), t, tag);
  }

  /** No flow is put in flight, except that of packet `p`. */
  ghost predicate OnlyNew(d: Priv, d': Priv, p: nat, tag: Tag) {
    forall w: nat, t: nat :: InFlight(d', w, t) ==> InFlight(d, w, t) || t == tag(p)
  }

  /**
    Pending packets of outer calls, when the innermost call has fewer packets and puts at most one of them in flight.
  */
  lemma NextTop(d: Priv, d': Priv, stack: seq<Frame>, f: Frame, i: nat, p: nat, tag: Tag)
    requires Indexed(stack) && stack != [] && f.idx <= |f.mbufs| && i < |stack| - 1 && NextOk(d, stack, i, tag)
    requires d' == d || (OnlyNew(d, d', p, tag) && p in Pending(stack[|stack| - 1]))
    requires forall q :: q in Pending(f) ==> q in Pending(stack[|stack| - 1])
    ensures NextOk(d', stack[|stack| - 1 := f], i, tag)
  {
    var n := |stack| - 1;
    var stack' := stack[n := f];
    if stack[i].next != 0 {
      var t := tag(stack[i].next);
      assert NoneTagged(Pending(stack[n]), t, tag);
      forall k | i < k < |stack'| ensures NoneTagged(Pending(stack'[k]), t, tag) {
        if k < n {
          assert NoneTagged(Pending(stack[k]), t, tag);
        }
      }
    }
  }

  /** The pending packets of all calls after a change at the innermost one. */
  lemma NextAll(s: State, s': State, f: Frame, p: nat, tag: Tag)
    requires Sized(s) && Sized(s') && s.stack != [] && FramesOk(s) && FramesOk(s') && AllNextOk(s, tag)
    requires s'.stack == s.stack[|s.stack| - 1 := f] && f.idx <= |f.mbufs|
    requires s'.d == s.d || (OnlyNew(s.d, s'.d, p, tag) && p in Pending(TopOf(s)))
    requires forall q :: q in Pending(f) ==> q in Pending(TopOf(s))
    requires f.next != 0 ==> forall w: nat :: !InFlight(s'.d, w, tag(f.next))
    ensures AllNextOk(s', tag)
  {
    var n := |s.stack| - 1;
    forall i | 0 <= i < |s'.stack| ensures NextOk(s'.d, s'.stack, i, tag) {
      if i < n {
        assert NextOk(s.d, s.stack, i, tag);
        NextTop(s.d, s'.d, s.stack, f, i, p, tag);
      }
    }
  }

  lemma FramesTop(s: State, f: Frame)
    requires Sized(s) && FramesOk(s) && s.stack != [] && FrameSane(f, |s.bufs|) && f.pc != Closing
    ensures FramesOk(SetTop(s, f))
  {
  }

  /** The innermost call moves on without touching packets. */
  lemma TopMoves(s: State, f: Frame, tag: Tag)
    requires Inv(s, tag) && MayTick(s) && FrameSane(f, |s.bufs|) && f.pc != Closing
    requires Pending(f) == Pending(TopOf(s)) &&
      (f.next == TopOf(s).next || (f.next != 0 && forall w: nat :: !InFlight(s.d, w, tag(f.next))))
    requires (f.pc.Latched? || f.pc.Ready?) && f.pc.data.flag != NoBuf ==>
      f.wkr < |s.bufs| && s.bufs[f.wkr] == f.pc.data
    ensures Inv(SetTop(s, f), tag)
  {
    hide BacklogOk, BufOk, NextOk, InOrder;
    var s' := SetTop(s, f);
    StaleTop(s, f);
    FramesTop(s, f);
    NextAtTop(s, tag);
    NextAll(s, s', f, 0, tag);
    forall t: nat ensures InOrder(s', t, tag) {
      assert InOrder(s, t, tag);
      SameOrder(s, s', f, t, tag);
    }
    SameFlows(s, s', tag);
  }

  lemma NextAtTop(s: State, tag: Tag)
    requires Sized(s) && s.stack != [] && FramesOk(s) && AllNextOk(s, tag)
    ensures TopOf(s).next != 0 ==> forall w: nat :: !InFlight(s.d, w, tag(TopOf(s).next))
  {
    assert NextOk(s.d, s.stack, |s.stack| - 1, tag);
  }

  lemma SameOrder(s: State, s': State, f: Frame, t: nat, tag: Tag)
    requires Sized(s) && FramesOk(s) && InOrder(s, t, tag) && s.stack != [] && Sized(s') && FramesOk(s') &&
      f.idx <= |f.mbufs|
    requires s'.stack == s.stack[|s.stack| - 1 := f] && s'.out == s.out && s'.sub == s.sub
    requires Pending(TopOf(s)) == Pending(f) && Live(s'.d, t) == Live(s.d, t)
    ensures InOrder(s', t, tag)
  {
    hide OfTag, Live, AllPending, Pending;
    OrderAtTop(s, t, tag);
    PendingTop(s.stack, f, t, tag);
  }

  // ------------------------------------------------------------------------- the workers

  lemma WorkerKeeps(s: State, w: nat, b: Buf, retired: seq<bool>, tag: Tag)
    requires Inv(s, tag) && w < |s.bufs| && !s.retired[w] && b.flag != NoBuf &&
      (s.bufs[w].flag == NoBuf || !Answering(s, w))
    requires retired == if b.flag == Ret then s.retired[w := true] else s.retired
    ensures Inv(s.(bufs := s.bufs[w := b], retired := retired, fin := Finish(s, w)), tag)
  {
    hide BufsOk, PrivOk, AllNextOk, InOrder, Conserved;
    var s' := s.(bufs := s.bufs[w := b], retired := retired, fin := Finish(s, w));
    WorkerBufs(s, s', w, tag);
    WorkerOrder(s, s', tag);
    WorkerConserves(s, s', w, b);
  }

  lemma WorkerBufs(s: State, s': State, w: nat, tag: Tag)
    requires Sized(s) && Sized(s') && BufsOk(s, tag) && w < |s.bufs| && !s.retired[w]
    requires s'.d == s.d && s'.stack == s.stack && s'.bufs == s.bufs[w := s'.bufs[w]] && s'.bufs[w].flag != NoBuf
    requires s'.retired == if s'.bufs[w].flag == Ret then s.retired[w := true] else s.retired
    ensures BufsOk(s', tag) && s.bufs[w].flag != Ret
  {
    hide Stale;
    assert BufOk(s.d, s.bufs[w], s.retired[w], w, Stale(s.stack), tag);
    forall x | 0 <= x < |s'.bufs| ensures BufOk(s'.d, s'.bufs[x], s'.retired[x], x, Stale(s'.stack), tag) {
      assert BufOk(s.d, s.bufs[x], s.retired[x], x, Stale(s.stack), tag);
    }
  }

  lemma WorkerOrder(s: State, s': State, tag: Tag)
    requires Sized(s) && Sized(s') && FramesOk(s) && FramesOk(s') && AllNextOk(s, tag) && forall t: nat ::
      InOrder(s, t, tag)
    requires s'.d == s.d && s'.stack == s.stack && s'.out == s.out && s'.sub == s.sub
    ensures AllNextOk(s', tag) && forall t: nat :: InOrder(s', t, tag)
  {
    hide NextOk;
    forall i | 0 <= i < |s'.stack| ensures NextOk(s'.d, s'.stack, i, tag) {
      assert NextOk(s.d, s.stack, i, tag);
    }
    forall t: nat ensures InOrder(s', t, tag) {
      assert InOrder(s, t, tag);
    }
  }

  lemma WorkerConserves(s: State, s': State, w: nat, b: Buf)
    requires Conserved(s) && w < |s.bufs| && b.flag != NoBuf
    requires s'.out == s.out && s'.bufs == s.bufs[w := b] && s'.fin == Finish(s, w)
    ensures Conserved(s')
  {
    forall p: nat | p != 0 ensures multiset(s'.out)[p] == Held(s'.bufs, p) + multiset(s'.fin)[p] {
      HeldUpdate(s.bufs, w, b, p);
    }
  }

  lemma CallKeeps(s: State, mbufs: seq<nat>, tag: Tag)
    requires Inv(s, tag) && MayCall(s, mbufs)
    ensures Inv(Call(s, mbufs), tag)
  {
    hide BacklogOk, BufOk, InOrder;
    var s' := Call(s, mbufs);
    assert Stale(s'.stack) == Stale(s.stack);
    forall t: nat ensures InOrder(s', t, tag) {
      assert InOrder(s, t, tag);
      CallOrder(s, s', mbufs, t, tag);
    }
    SameFlows(s, s', tag);
  }

  lemma CallOrder(s: State, s': State, mbufs: seq<nat>, t: nat, tag: Tag)
    requires Sized(s) && FramesOk(s) && InOrder(s, t, tag) && s.stack == [] && Sized(s') && FramesOk(s') && s'.d == s.d
    requires |s'.stack| == 1 && s'.stack[0].idx == s'.stack[0].next == 0 && s'.stack[0].mbufs == mbufs
    requires s'.sub == s.sub + mbufs && s'.out == s.out
    ensures InOrder(s', t, tag)
  {
    hide OfTag, Live, AllPending, Pending;
    PendingPushed([], s'.stack[0]);
    assert [] + [s'.stack[0]] == s'.stack;
    NothingWaits(t, tag);
    assert mbufs + [] == mbufs;
    OfTagConcat(s.sub, mbufs, t, tag);
    EmptyMiddle(OfTag(s.out, t, tag), Live(s.d, t));
  }

  lemma NothingWaits(t: nat, tag: Tag)
    ensures AllPending([]) == [] && OfTag([], t, tag) == []
  {
  }

  lemma EmptyMiddle(a: seq<nat>, b: seq<nat>)
    ensures a + b + [] == a + b
  {
  }

  // ------------------------------------------------------------------- taking a packet

  /** A packet of a flow that nobody has becomes the pending packet. */
  lemma FetchPending(s: State, data: Buf, tag: Tag)
    requires Inv(s, tag) && MayTick(s) && TopOf(s).pc == Latched(data) && TopOf(s).kind == Main && TopOf(s).next == 0
    requires Worker(s.d, tag(TopOf(s).mbufs[TopOf(s).idx])) >= |s.bufs|
    ensures Inv(Fetch(s, data, tag), tag)
  {
    hide Inv, InOrder, NextOk, PrivOk, BufOk;
    InvSized(s, tag);
    var f := TopOf(s);
    var p := f.mbufs[f.idx];
    var f' := f.(idx := f.idx + 1, next := p, pc := Ready(data));
    assert p in f.mbufs;
    assert f.mbufs[f.idx..] == [p] + f.mbufs[f.idx + 1..];
    assert Pending(f') == Pending(f);
    TopMoves(s, f', tag);
  }

  lemma InvSized(s: State, tag: Tag)
    requires Inv(s, tag)
    ensures Sized(s) && FramesOk(s) && LatchOk(s)
  {
  }

  lemma QueueOk(d: Priv, w: nat, p: nat, stale: set<nat>, tag: Tag)
    requires PrivOk(d, stale, tag) && InFlight(d, w, tag(p)) && |d.backlog[w]| < BACKLOG_SIZE && p != 0
    ensures PrivOk(d.(backlog := d.backlog[w := d.backlog[w] + [p]]), stale, tag)
    ensures forall t: nat ::
      Live(d.(backlog := d.backlog[w := d.backlog[w] + [p]]), t) == Live(d, t) + if tag(p) == t then [p] else []
  {
    var d' := d.(backlog := d.backlog[w := d.backlog[w] + [p]]);
    forall x: nat, t: nat ensures InFlight(d, x, t) <==> InFlight(d', x, t) { }
    forall x | 0 <= x < |d'.backlog| ensures BacklogOk(d', x, stale, tag) {
      assert BacklogOk(d, x, stale, tag);
    }
    forall t: nat ensures Live(d', t) == Live(d, t) + if tag(p) == t then [p] else [] {
      SameWorker(d, d', t);
      if t == tag(p) {
        WorkerIs(d, w, t);
      } else {
        assert Worker(d, t) != w;
      }
    }
  }

  /** A packet that moves from the front of the innermost call to the end of its flow's backlog. */
  lemma QueuedOrder(s: State, s': State, f: Frame, p: nat, t: nat, tag: Tag)
    requires Sized(s) && FramesOk(s) && InOrder(s, t, tag) && s.stack != [] && Sized(s') && FramesOk(s') &&
      f.idx <= |f.mbufs|
    requires s'.stack == s.stack[|s.stack| - 1 := f] && s'.out == s.out && s'.sub == s.sub
    requires Pending(TopOf(s)) == [p] + Pending(f)
    requires Live(s'.d, t) == Live(s.d, t) + if tag(p) == t then [p] else []
    ensures InOrder(s', t, tag)
  {
    hide OfTag, Live, AllPending, Pending;
    OrderAtTop(s, t, tag);
    PendingTop(s.stack, f, t, tag);
    OfTagConcat([p], Pending(f), t, tag);
    OfTagOne(p, t, tag);
    Shift(OfTag(s.out, t, tag), Live(s.d, t), OfTag([p], t, tag), OfTag(Pending(f), t, tag),
      OfTag(AllPending(Below(s)), t, tag));
  }

  lemma Shift(a: seq<nat>, b: seq<nat>, c: seq<nat>, d: seq<nat>, e: seq<nat>)
    ensures a + b + ((c + d) + e) == a + (b + c) + (d + e)
  {
  }

  /** A packet of a flow that a worker has goes to the end of its backlog. */
  lemma FetchQueued(s: State, data: Buf, tag: Tag)
    requires Inv(s, tag) && MayTick(s) && TopOf(s).pc == Latched(data) && TopOf(s).kind == Main && TopOf(s).next == 0
    requires var w := Worker(s.d, tag(TopOf(s).mbufs[TopOf(s).idx])); w < |s.bufs| && |s.d.backlog[w]| < BACKLOG_SIZE
    ensures Inv(Fetch(s, data, tag), tag)
  {
    hide BacklogOk, BufOk, NextOk, InOrder;
    var f := TopOf(s);
    var p := f.mbufs[f.idx];
    var w := Worker(s.d, tag(p));
    var f' := f.(idx := f.idx + 1, pc := Ready(data));
    var d' := s.d.(backlog := s.d.backlog[w := s.d.backlog[w] + [p]]);
    var s' := SetTop(s, f').(d := d');
    assert p in f.mbufs;
    assert f.mbufs[f.idx..] == [p] + f.mbufs[f.idx + 1..];
    assert Pending(f) == [p] + Pending(f');
    StaleTop(s, f');
    FramesTop(s, f');
    QueueOk(s.d, w, p, Stale(s.stack), tag);
    NextAll(s, s', f', p, tag);
    forall t: nat ensures InOrder(s', t, tag) {
      assert InOrder(s, t, tag);
      QueuedOrder(s, s', f', p, t, tag);
    }
    SameFlows(s, s', tag);
  }

  /** The words are as good as before when the tags are. */
  lemma SameFlows(s: State, s': State, tag: Tag)
    requires Sized(s) && Sized(s') && BufsOk(s, tag) && Stale(s'.stack) == Stale(s.stack)
    requires s'.bufs == s.bufs && s'.retired == s.retired && s'.d.tags == s.d.tags && s'.d.mask == s.d.mask
    ensures BufsOk(s', tag)
  {
    forall w | 0 <= w < |s'.bufs| ensures BufOk(s'.d, s'.bufs[w], s'.retired[w], w, Stale(s'.stack), tag) {
      assert BufOk(s.d, s.bufs[w], s.retired[w], w, Stale(s.stack), tag);
    }
  }

  // ---------------------------------------------------------------- serving a request

  /** A worker that has been read to ask for a packet still asks, and its backlog is of its flow. */
  lemma AtRequest(s: State, tag: Tag)
    requires Inv(s, tag) && MayTick(s) && TopOf(s).pc.Ready? && TopOf(s).pc.data.flag == Get
    ensures var w := TopOf(s).wkr;
      && w < |s.bufs| && s.bufs[w].flag == Get && !s.retired[w] && w !in Stale(s.stack)
      && |s.d.backlog[w]| <= BACKLOG_SIZE && 0 !in s.d.backlog[w]
      && (s.d.backlog[w] != [] ==> s.d.mask[w] && AllTagged(s.d.backlog[w], s.d.tags[w], tag))
  {
    var w := TopOf(s).wkr;
    assert BufOk(s.d, s.bufs[w], s.retired[w], w, Stale(s.stack), tag);
    assert BacklogOk(s.d, w, Stale(s.stack), tag);
  }

  /** Only the word and the flow of worker `w` change. */
  lemma BufsUpdate(s: State, s': State, w: nat, tag: Tag)
    requires Sized(s) && Sized(s') && BufsOk(s, tag) && w < |s.bufs| && s'.retired == s.retired
    requires s'.bufs == s.bufs[w := s'.bufs[w]] && |s'.bufs| == |s.bufs|
    requires forall x :: 0 <= x < |s.bufs| && x != w ==> s'.d.tags[x] == s.d.tags[x] && s'.d.mask[x] == s.d.mask[x]
    requires forall x :: x in Stale(s'.stack) && x != w ==> x in Stale(s.stack)
    requires BufOk(s'.d, s'.bufs[w], s'.retired[w], w, Stale(s'.stack), tag)
    ensures BufsOk(s', tag)
  {
    forall x | 0 <= x < |s'.bufs| ensures BufOk(s'.d, s'.bufs[x], s'.retired[x], x, Stale(s'.stack), tag) {
      if x != w { assert BufOk(s.d, s.bufs[x], s.retired[x], x, Stale(s.stack), tag); }
    }
  }

  /** A packet is handed to worker `w`, which held none. */
  lemma HandedOut(s: State, s': State, w: nat, p: nat)
    requires Conserved(s) && w < |s.bufs| && s.bufs[w].flag != NoBuf && s'.fin == s.fin
    requires s'.bufs == s.bufs[w := Buf(NoBuf, p)] && s'.out == s.out + [p]
    ensures Conserved(s')
  {
    forall q: nat | q != 0 ensures multiset(s'.out)[q] == Held(s'.bufs, q) + multiset(s'.fin)[q] {
      HeldUpdate(s.bufs, w, Buf(NoBuf, p), q);
    }
  }

  lemma NothingHeld(s: State, s': State, w: nat, b: Buf)
    requires Conserved(s) && w < |s.bufs| && s.bufs[w].flag != NoBuf && s'.fin == s.fin
    requires s'.bufs == s.bufs[w := b] && s'.out == s.out && (b.flag != NoBuf || b.ptr == 0)
    ensures Conserved(s')
  {
    forall q: nat | q != 0 ensures multiset(s'.out)[q] == Held(s'.bufs, q) + multiset(s'.fin)[q] {
      HeldUpdate(s.bufs, w, b, q);
    }
  }

  lemma PopOk(d: Priv, w: nat, stale: set<nat>, tag: Tag)
    requires PrivOk(d, stale, tag) && w < |d.tags| && d.mask[w] && d.backlog[w] != []
    ensures PrivOk(d.(backlog := d.backlog[w := d.backlog[w][1..]]), stale, tag)
    ensures forall t: nat ::
      Live(d, t) == (if d.tags[w] ==
        t then [d.backlog[w][0]] else []) + Live(d.(backlog := d.backlog[w := d.backlog[w][1..]]), t)
  {
    var d' := d.(backlog := d.backlog[w := d.backlog[w][1..]]);
    forall x: nat, t: nat ensures InFlight(d, x, t) <==> InFlight(d', x, t) { }
    forall x | 0 <= x < |d'.backlog| ensures BacklogOk(d', x, stale, tag) {
      assert BacklogOk(d, x, stale, tag);
    }
    forall t: nat ensures Live(d, t) == (if d.tags[w] == t then [d.backlog[w][0]] else []) + Live(d', t) {
      SameWorker(d, d', t);
      if t == d.tags[w] {
        WorkerIs(d, w, t);
      } else {
        assert Worker(d, t) != w;
      }
    }
  }

  lemma PoppedOrder(s: State, s': State, f: Frame, p: nat, t: nat, tag: Tag)
    requires Sized(s) && FramesOk(s) && InOrder(s, t, tag) && s.stack != [] && Sized(s') && FramesOk(s') &&
      f.idx <= |f.mbufs|
    requires s'.stack == s.stack[|s.stack| - 1 := f] && s'.out == s.out + [p] && s'.sub == s.sub
    requires Pending(TopOf(s)) == Pending(f)
    requires Live(s.d, t) == (if tag(p) == t then [p] else []) + Live(s'.d, t)
    ensures InOrder(s', t, tag)
  {
    hide OfTag, Live, AllPending, Pending;
    OrderAtTop(s, t, tag);
    PendingTop(s.stack, f, t, tag);
    OfTagConcat(s.out, [p], t, tag);
    OfTagOne(p, t, tag);
    var rest := OfTag(Pending(f), t, tag) + OfTag(AllPending(Below(s)), t, tag);
    Regroup(OfTag(s.out, t, tag), OfTag([p], t, tag), Live(s'.d, t), rest);
  }

  lemma Regroup(a: seq<nat>, b: seq<nat>, c: seq<nat>, d: seq<nat>)
    ensures a + (b + c) + d == (a + b) + c + d
  {
  }

  lemma GiveQueuedKeeps(s: State, tag: Tag)
    requires Inv(s, tag) && MayTick(s) && TopOf(s).pc.Ready? && TopOf(s).pc.data.flag == Get &&
      s.d.backlog[TopOf(s).wkr] != []
    ensures Inv(GiveQueued(s), tag)
  {
    hide BacklogOk, NextOk, InOrder, Conserved;
    var f, s' := TopOf(s), GiveQueued(s);
    var w, p := f.wkr, s.d.backlog[f.wkr][0];
    var f' := Advance(f, |s.bufs|);
    AtRequest(s, tag);
    assert p in s.d.backlog[w];
    StaleTop(s, f');
    FramesTop(s, f');
    assert s'.stack == SetTop(s, f').stack;
    PopOk(s.d, w, Stale(s.stack), tag);
    NextAtTop(s, tag);
    SameInFlight(s, s', f', tag);
    forall t: nat ensures InOrder(s', t, tag) {
      assert InOrder(s, t, tag);
      PoppedOrder(s, s', f', p, t, tag);
    }
    BufsUpdate(s, s', w, tag);
    HandedOut(s, s', w, p);
  }

  /** As `NextAll`, when tags and mask are the same. */
  lemma SameInFlight(s: State, s': State, f: Frame, tag: Tag)
    requires Sized(s) && Sized(s') && s.stack != [] && FramesOk(s) && FramesOk(s') && AllNextOk(s, tag)
    requires s'.stack == s.stack[|s.stack| - 1 := f] && f.idx <= |f.mbufs|
    requires s'.d.tags == s.d.tags && s'.d.mask == s.d.mask
    requires Pending(f) == Pending(TopOf(s)) && f.next == TopOf(s).next
    ensures AllNextOk(s', tag)
  {
    forall w: nat, t: nat ensures InFlight(s.d, w, t) <==> InFlight(s'.d, w, t) { }
    forall i | 0 <= i < |s'.stack| ensures NextOk(s'.d, s'.stack, i, tag) {
      assert NextOk(s.d, s.stack, i, tag);
      if i < |s.stack| - 1 {
        NextTop(s.d, s.d, s.stack, f, i, 0, tag);
        assert NextOk(s.d, s'.stack, i, tag);
      }
    }
  }

  /** Worker `w`, with empty backlog, takes over a flow that nobody has. */
  lemma AssignOk(d: Priv, d': Priv, w: nat, p: nat, stale: set<nat>, tag: Tag)
    requires PrivOk(d, stale, tag) && w < |d.tags| && d.backlog[w] == [] && forall x: nat :: !InFlight(d, x, tag(p))
    requires d' == d.(tags := d.tags[w := tag(p)], mask := d.mask[w := true])
    ensures PrivOk(d', stale, tag) && OnlyNew(d, d', p, tag)
    ensures forall t: nat :: Live(d', t) == Live(d, t)
    ensures Live(d, tag(p)) == []
  {
    forall x: nat, t: nat ensures InFlight(d', x, t) <==> if x == w then t == tag(p) else InFlight(d, x, t) { }
    forall x | 0 <= x < |d'.backlog| ensures BacklogOk(d', x, stale, tag) {
      assert BacklogOk(d, x, stale, tag);
    }
    forall t: nat ensures Live(d', t) == Live(d, t) {
      if t == tag(p) {
        WorkerIs(d', w, t);
      } else if Worker(d, t) == w {
        assert InFlight(d, w, t);
        assert forall x: nat :: !InFlight(d', x, t);
      } else {
        assert !InFlight(d, w, t) by { if InFlight(d, w, t) { WorkerIs(d, w, t); } }
        SameWorker(d, d', t);
      }
    }
  }

  lemma GivenOrder(s: State, s': State, f: Frame, p: nat, t: nat, tag: Tag)
    requires Sized(s) && FramesOk(s) && InOrder(s, t, tag) && s.stack != [] && Sized(s') && FramesOk(s') &&
      f.idx <= |f.mbufs|
    requires s'.stack == s.stack[|s.stack| - 1 := f] && s'.out == s.out + [p] && s'.sub == s.sub
    requires Pending(TopOf(s)) == [p] + Pending(f)
    requires Live(s'.d, t) == Live(s.d, t) && (tag(p) == t ==> Live(s.d, t) == [])
    ensures InOrder(s', t, tag)
  {
    hide OfTag, Live, AllPending, Pending;
    OrderAtTop(s, t, tag);
    PendingTop(s.stack, f, t, tag);
    OfTagConcat(s.out, [p], t, tag);
    OfTagConcat([p], Pending(f), t, tag);
    OfTagOne(p, t, tag);
    var a, b, c, d, e := OfTag(s.out, t, tag), Live(s.d, t), OfTag([p], t, tag), OfTag(Pending(f), t,
      tag), OfTag(AllPending(Below(s)), t, tag);
    Shift(a, b, c, d, e);
    NoneFirst(b, c);
    Regroup(a, c, b, d + e);
  }

  lemma NoneFirst(b: seq<nat>, c: seq<nat>)
    requires b == [] || c == []
    ensures b + c == c + b
  {
  }

  lemma GiveNextKeeps(s: State, tag: Tag)
    requires Inv(s, tag) && MayTick(s) && TopOf(s).pc.Ready? && TopOf(s).pc.data.flag == Get
    requires s.d.backlog[TopOf(s).wkr] == [] && TopOf(s).kind == Main && TopOf(s).next != 0
    ensures Inv(GiveNext(s, tag), tag)
  {
    hide BacklogOk, NextOk, InOrder, Conserved;
    var f, s' := TopOf(s), GiveNext(s, tag);
    var w, p := f.wkr, f.next;
    var f' := Advance(f.(next := 0), |s.bufs|);
    AtRequest(s, tag);
    StaleTop(s, f');
    FramesTop(s, f');
    assert s'.stack == SetTop(s, f').stack;
    NextAtTop(s, tag);
    AssignOk(s.d, s'.d, w, p, Stale(s.stack), tag);
    assert Pending(f) == [p] + Pending(f');
    NextAll(s, s', f', p, tag);
    forall t: nat ensures InOrder(s', t, tag) {
      assert InOrder(s, t, tag);
      GivenOrder(s, s', f', p, t, tag);
    }
    BufsUpdate(s, s', w, tag);
    HandedOut(s, s', w, p);
  }

  // ------------------------------------------------------------- releasing and shutting down

  /** Worker `w` gives up its flow; its backlog, if any, is then stale. */
  lemma OffOk(d: Priv, w: nat, stale: set<nat>, stale': set<nat>, tag: Tag)
    requires PrivOk(d, stale, tag) && w < |d.tags| && stale <= stale' && (d.backlog[w] == [] || w in stale')
    ensures PrivOk(Off(d, w), stale', tag)
    ensures forall x: nat, t: nat :: InFlight(Off(d, w), x, t) <==> InFlight(d, x, t) && x != w
    ensures forall t: nat :: Live(Off(d, w), t) == if InFlight(d, w, t) then [] else Live(d, t)
  {
    var d' := Off(d, w);
    forall x: nat, t: nat ensures InFlight(d', x, t) <==> InFlight(d, x, t) && x != w { }
    forall x | 0 <= x < |d'.backlog| ensures BacklogOk(d', x, stale', tag) {
      assert BacklogOk(d, x, stale, tag);
    }
    forall t: nat ensures Live(d', t) == if InFlight(d, w, t) then [] else Live(d, t) {
      if InFlight(d, w, t) {
        WorkerIs(d, w, t);
      } else {
        SameWorker(d, d', t);
      }
    }
  }

  /** With an empty backlog nothing is lost by giving up the flow. */
  lemma OffEmpty(d: Priv, w: nat, t: nat)
    requires |d.tags| == |d.mask| == |d.backlog| && TagsDiffer(d) && w < |d.tags| && d.backlog[w] == []
    ensures InFlight(d, w, t) ==> Live(d, t) == []
  {
    if InFlight(d, w, t) {
      WorkerIs(d, w, t);
    }
  }

  lemma FewerFlows(s: State, s': State, f: Frame, tag: Tag)
    requires Sized(s) && Sized(s') && s.stack != [] && FramesOk(s) && FramesOk(s') && AllNextOk(s, tag)
    requires s'.stack == s.stack[|s.stack| - 1 := f] && f.idx <= |f.mbufs|
    requires forall w: nat, t: nat :: InFlight(s'.d, w, t) ==> InFlight(s.d, w, t)
    requires Pending(f) == Pending(TopOf(s)) && f.next == TopOf(s).next
    ensures AllNextOk(s', tag)
  {
    forall i | 0 <= i < |s'.stack| ensures NextOk(s'.d, s'.stack, i, tag) {
      assert NextOk(s.d, s.stack, i, tag);
      if i < |s.stack| - 1 {
        NextTop(s.d, s.d, s.stack, f, i, 0, tag);
        assert NextOk(s.d, s'.stack, i, tag);
      }
    }
  }

  /** The flow of a worker with empty backlog is given up: a released or a shut-down worker. */
  lemma OffKeeps(s: State, b: Buf, tag: Tag)
    requires Inv(s, tag) && MayTick(s) && TopOf(s).pc.Ready? && TopOf(s).pc.data.flag != NoBuf &&
      s.d.backlog[TopOf(s).wkr] == []
    requires b == if TopOf(s).pc.data.flag == Get then Buf(Get, 0) else Buf(NoBuf, 0)
    ensures var f := TopOf(s);
      Inv(SetTop(s, Advance(f, |s.bufs|)).(bufs := s.bufs[f.wkr := b], d := Off(s.d, f.wkr)), tag)
  {
    hide BacklogOk, NextOk, InOrder, Conserved;
    var f := TopOf(s);
    var w, f' := f.wkr, Advance(f, |s.bufs|);
    var s' := SetTop(s, f').(bufs := s.bufs[w := b], d := Off(s.d, w));
    assert BufOk(s.d, s.bufs[w], s.retired[w], w, Stale(s.stack), tag);
    StaleTop(s, f');
    FramesTop(s, f');
    assert s'.stack == SetTop(s, f').stack;
    OffOk(s.d, w, Stale(s.stack), Stale(s.stack), tag);
    FewerFlows(s, s', f', tag);
    forall t: nat ensures InOrder(s', t, tag) {
      assert InOrder(s, t, tag);
      OffEmpty(s.d, w, t);
      SameOrder(s, s', f', t, tag);
    }
    BufsUpdate(s, s', w, tag);
    NothingHeld(s, s', w, b);
  }

  lemma StalePush(stack: seq<Frame>, f: Frame, g: Frame)
    requires stack != [] && stack[|stack| - 1].pc != Closing && f.pc == Closing && g.pc != Closing
    ensures Stale(stack[|stack| - 1 := f] + [g]) == Stale(stack) + {f.wkr}
  {
    var n := |stack| - 1;
    var stack' := stack[n := f] + [g];
    forall w ensures w in Stale(stack') <==> w in Stale(stack) || w == f.wkr {
      if w in Stale(stack) {
        var i :| 0 <= i < |stack| && stack[i].pc == Closing && stack[i].wkr == w;
        assert stack'[i].pc == Closing && stack'[i].wkr == w;
      }
      assert stack'[n] == f;
      if w in Stale(stack') {
        var i :| 0 <= i < |stack'| && stack'[i].pc == Closing && stack'[i].wkr == w;
        assert i < n ==> stack[i].pc == Closing && stack[i].wkr == w;
      }
    }
  }

  /** The backlog of a shut-down worker becomes the packets of a nested call. */
  lemma PushedOrder(s: State, s': State, f: Frame, g: Frame, t: nat, tag: Tag)
    requires Sized(s) && FramesOk(s) && InOrder(s, t, tag) && s.stack != [] && Sized(s') && FramesOk(s') &&
      f.idx <= |f.mbufs| && g.idx == g.next == 0
    requires s'.stack == s.stack[|s.stack| - 1 := f] + [g] && s'.out == s.out && s'.sub == s.sub
    requires Pending(TopOf(s)) == Pending(f)
    requires Live(s.d, t) == Live(s'.d, t) + OfTag(g.mbufs, t, tag)
    requires OfTag(g.mbufs, t, tag) == [] || Live(s'.d, t) == []
    ensures InOrder(s', t, tag)
  {
    hide OfTag, Live, AllPending, Pending;
    OrderAtTop(s, t, tag);
    var mid := s.stack[|s.stack| - 1 := f];
    assert s'.stack == mid + [g];
    PendingPushed(mid, g);
    OfTagConcat(g.mbufs, AllPending(mid), t, tag);
    PendingTop(s.stack, f, t, tag);
    Regroup2(OfTag(s.out, t, tag), Live(s'.d, t), OfTag(g.mbufs, t, tag), OfTag(AllPending(mid), t, tag));
  }

  lemma Regroup2(a: seq<nat>, b: seq<nat>, c: seq<nat>, d: seq<nat>)
    ensures a + (b + c) + d == a + b + (c + d)
  {
  }

  lemma PushedNext(s: State, s': State, f: Frame, g: Frame, w: nat, tag: Tag)
    requires Sized(s) && Sized(s') && s.stack != [] && FramesOk(s) && FramesOk(s') && AllNextOk(s, tag)
    requires s'.stack == s.stack[|s.stack| - 1 := f] + [g] && f.idx <= |f.mbufs| && g.idx == g.next == 0
    requires forall x: nat, t: nat :: InFlight(s'.d, x, t) ==> InFlight(s.d, x, t)
    requires Pending(f) == Pending(TopOf(s)) && f.next == TopOf(s).next
    requires w < |s.d.tags| && s.d.mask[w] && AllTagged(g.mbufs, s.d.tags[w], tag)
    ensures AllNextOk(s', tag)
  {
    var n := |s.stack| - 1;
    assert Pending(g) == g.mbufs;
    forall i | 0 <= i < |s'.stack| ensures NextOk(s'.d, s'.stack, i, tag) {
      if i <= n {
        assert NextOk(s.d, s.stack, i, tag);
        if s.stack[i].next != 0 {
          var t := tag(s.stack[i].next);
          assert !InFlight(s.d, w, t);
          forall k | i < k < |s'.stack| ensures NoneTagged(Pending(s'.stack[k]), t, tag) {
            assert k <= n ==> NoneTagged(Pending(s.stack[k]), t, tag);
          }
        }
      }
    }
  }

  lemma PushedFrames(s: State, f: Frame, g: Frame)
    requires Sized(s) && FramesOk(s) && s.stack != [] && FrameSane(f, |s.bufs|) && f.pc == Closing &&
      FrameSane(g, |s.bufs|) && g.pc != Closing
    ensures FramesOk(s.(stack := s.stack[|s.stack| - 1 := f] + [g]))
  {
  }

  /** Flow `t` of the worker that is shut down, and every other flow. */
  lemma PendingPushed(mid: seq<Frame>, g: Frame)
    requires Indexed(mid) && g.idx == g.next == 0
    ensures AllPending(mid + [g]) == g.mbufs + AllPending(mid)
  {
    assert (mid + [g])[..|mid|] == mid;
    assert Pending(g) == g.mbufs;
  }

  lemma LiveSplit(d: Priv, d': Priv, w: nat, t: nat, tag: Tag)
    requires |d.tags| == |d.mask| == |d.backlog| == |d'.tags| == |d'.backlog| && TagsDiffer(d) && w < |d.tags| &&
      d.mask[w]
    requires AllTagged(d.backlog[w], d.tags[w], tag)
    requires Live(d', t) == if InFlight(d, w, t) then [] else Live(d, t)
    ensures Live(d, t) == Live(d', t) + OfTag(d.backlog[w], t, tag)
    ensures OfTag(d.backlog[w], t, tag) == [] || Live(d', t) == []
  {
    if t == d.tags[w] {
      WorkerIs(d, w, t);
      OfTagAll(d.backlog[w], t, tag);
    } else {
      OfTagNone(d.backlog[w], t, tag);
    }
  }

  lemma ShutdownKeeps(s: State, tag: Tag)
    requires Inv(s, tag) && MayTick(s) && TopOf(s).pc.Ready? && TopOf(s).pc.data.flag == Ret &&
      s.d.backlog[TopOf(s).wkr] != []
    ensures Inv(Shutdown(s), tag)
  {
    hide BacklogOk, NextOk, InOrder, Conserved;
    var f, s' := TopOf(s), Shutdown(s);
    var w, q := f.wkr, s.d.backlog[f.wkr];
    var f', g := f.(pc := Closing), Frame(Main, q, 0, 0, 0, Top);
    AtReturn(s, tag);
    StalePush(s.stack, f', g);
    PushedFrames(s, f', g);
    assert FramesOk(s');
    OffOk(s.d, w, Stale(s.stack), Stale(s'.stack), tag);
    PushedNext(s, s', f', g, w, tag);
    forall t: nat ensures InOrder(s', t, tag) {
      assert InOrder(s, t, tag);
      LiveSplit(s.d, s'.d, w, t, tag);
      PushedOrder(s, s', f', g, t, tag);
    }
    BufsUpdate(s, s', w, tag);
    NothingHeld(s, s', w, Buf(NoBuf, 0));
  }

  lemma AtReturn(s: State, tag: Tag)
    requires Inv(s, tag) && MayTick(s) && TopOf(s).pc.Ready? && TopOf(s).pc.data.flag == Ret
    ensures var w := TopOf(s).wkr;
      && w < |s.bufs| && s.bufs[w].flag == Ret && s.retired[w] && w !in Stale(s.stack) && 0 !in s.d.backlog[w]
      && (s.d.backlog[w] != [] ==> s.d.mask[w] && AllTagged(s.d.backlog[w], s.d.tags[w], tag))
  {
    var w := TopOf(s).wkr;
    assert BufOk(s.d, s.bufs[w], s.retired[w], w, Stale(s.stack), tag);
    assert BacklogOk(s.d, w, Stale(s.stack), tag);
  }

  // ------------------------------------------------------------------- leaving a call

  lemma NothingPending(s: State)
    requires Sized(s) && FramesOk(s) && s.stack != [] && TopOf(s).kind != Main
    ensures Pending(TopOf(s)) == [] && AllPending(s.stack) == AllPending(Below(s))
  {
    assert FrameSane(TopOf(s), |s.bufs|);
  }

  lemma StaleLeave(stack: seq<Frame>, f: Frame)
    requires |stack| >= 2 && stack[|stack| - 1].pc != Closing && stack[|stack| - 2].pc == Closing && f.pc != Closing
    ensures var rest := stack[..|stack| - 1][|stack| - 2 := f];
      Stale(rest) <= Stale(stack) <= Stale(rest) + {stack[|stack| - 2].wkr}
    ensures stack[|stack| - 2].wkr in Stale(stack)
  {
    var n := |stack| - 2;
    var stack' := stack[..n + 1][n := f];
    forall w | w in Stale(stack') ensures w in Stale(stack) {
      var i :| 0 <= i < |stack'| && stack'[i].pc == Closing && stack'[i].wkr == w;
      assert stack[i].pc == Closing && stack[i].wkr == w;
    }
    forall w | w in Stale(stack) ensures w in Stale(stack') || w == stack[n].wkr {
      var i :| 0 <= i < |stack| && stack[i].pc == Closing && stack[i].wkr == w;
      assert i < n ==> stack'[i].pc == Closing && stack'[i].wkr == w;
    }
    assert stack[n].pc == Closing;
  }

  /** A stale backlog can be dropped. */
  lemma DropOk(d: Priv, w: nat, stale: set<nat>, stale': set<nat>, tag: Tag)
    requires PrivOk(d, stale, tag) && w < |d.tags| && !d.mask[w] && stale <= stale' + {w}
    ensures PrivOk(d.(backlog := d.backlog[w := []]), stale', tag)
    ensures forall t: nat :: Live(d.(backlog := d.backlog[w := []]), t) == Live(d, t)
  {
    var d' := d.(backlog := d.backlog[w := []]);
    forall x: nat, t: nat ensures InFlight(d, x, t) <==> InFlight(d', x, t) { }
    forall x | 0 <= x < |d'.backlog| ensures BacklogOk(d', x, stale', tag) {
      assert BacklogOk(d, x, stale, tag);
    }
    forall t: nat ensures Live(d', t) == Live(d, t) {
      SameWorker(d, d', t);
    }
  }

  lemma LeftOrder(s: State, s': State, f: Frame, t: nat, tag: Tag)
    requires Sized(s) && FramesOk(s) && InOrder(s, t, tag) && |s.stack| >= 2 && Sized(s') && FramesOk(s') &&
      TopOf(s).kind != Main
    requires s'.stack == Below(s)[|s.stack| - 2 := f] && s'.out == s.out && s'.sub == s.sub && f.idx <= |f.mbufs|
    requires Pending(f) == Pending(s.stack[|s.stack| - 2]) && Live(s'.d, t) == Live(s.d, t)
    ensures InOrder(s', t, tag)
  {
    hide OfTag, Live, AllPending, Pending;
    NothingPending(s);
    var n := |s.stack| - 2;
    assert Below(s)[n := s.stack[n]] == Below(s);
    PendingTop(Below(s), f, t, tag);
    PendingTop(Below(s), s.stack[n], t, tag);
  }

  lemma LeftNext(s: State, s': State, f: Frame, tag: Tag)
    requires Sized(s) && Sized(s') && |s.stack| >= 2 && FramesOk(s) && FramesOk(s') && AllNextOk(s, tag)
    requires s'.stack == Below(s)[|s.stack| - 2 := f] && f.idx <= |f.mbufs|
    requires s'.d.tags == s.d.tags && s'.d.mask == s.d.mask
    requires Pending(f) == Pending(s.stack[|s.stack| - 2]) && f.next == s.stack[|s.stack| - 2].next
    ensures AllNextOk(s', tag)
  {
    forall w: nat, t: nat ensures InFlight(s.d, w, t) <==> InFlight(s'.d, w, t) { }
    forall i | 0 <= i < |s'.stack| ensures NextOk(s'.d, s'.stack, i, tag) {
      assert NextOk(s.d, s.stack, i, tag);
      if s.stack[i].next != 0 {
        var t := tag(s.stack[i].next);
        forall k | i < k < |s'.stack| ensures NoneTagged(Pending(s'.stack[k]), t, tag) {
          assert NoneTagged(Pending(s.stack[k]), t, tag);
        }
      }
    }
  }

  lemma LeftFrames(s: State, f: Frame)
    requires Sized(s) && FramesOk(s) && |s.stack| >= 2 && FrameSane(f, |s.bufs|) && f.pc != Closing
    ensures FramesOk(s.(stack := Below(s)[|s.stack| - 2 := f]))
  {
  }

  lemma LastLeft(s: State, s': State, tag: Tag)
    requires Sized(s) && FramesOk(s) && |s.stack| == 1 && TopOf(s).kind != Main && forall t: nat :: InOrder(s, t, tag)
    requires Sized(s') && FramesOk(s') && s'.stack == [] && s'.d == s.d && s'.out == s.out && s'.sub == s.sub
    ensures AllNextOk(s', tag) && forall t: nat :: InOrder(s', t, tag)
  {
    hide OfTag, Live, AllPending, Pending;
    NothingPending(s);
    assert Below(s) == [];
    forall t: nat ensures InOrder(s', t, tag) {
      assert InOrder(s, t, tag);
    }
  }

  lemma LeaveLast(s: State, tag: Tag)
    requires Inv(s, tag) && MayTick(s) && |s.stack| == 1 && TopOf(s).kind != Main
    ensures Inv(Leave(s), tag)
  {
    hide PrivOk, BufsOk, AllNextOk, InOrder, Conserved;
    var s' := Leave(s);
    assert Below(s) == [] && s'.stack == [];
    assert Stale(s'.stack) == Stale(s.stack) == {};
    LastLeft(s, s', tag);
    SameFlows(s, s', tag);
    ConservedSame(s, s');
  }

  lemma LeaveKeeps(s: State, tag: Tag)
    requires Inv(s, tag) && MayTick(s) && |s.stack| >= 2 && TopOf(s).kind != Main
    ensures Inv(Leave(s), tag)
  {
    hide PrivOk, BufsOk, AllNextOk, InOrder, Conserved, Stale, Live, Leave, Pending, Advance;
    var n, s' := |s.stack| - 2, Leave(s);
    var f := s.stack[n];
    var w, f' := f.wkr, Advance(f, |s.bufs|);
    LeftIs(s);
    StaleLeave(s.stack, f');
    LeftPriv(s, w, Stale(s'.stack), tag);
    LeftNext(s, s', f', tag);
    LeftOrders(s, s', f', tag);
    BufsUpdate(s, s', w, tag);
    ConservedSame(s, s');
  }

  /** The state after a nested call. */
  lemma LeftIs(s: State)
    requires MayTick(s) && |s.stack| >= 2
    ensures var s', f := Leave(s), s.stack[|s.stack| - 2];
      var f' := Advance(f, |s.bufs|);
      && FrameSane(f, |s.bufs|) && FrameSane(f', |s.bufs|) && f.pc == Closing && f'.pc == Top && f.wkr < |s.bufs|
      && Pending(f') == Pending(f) && f'.next == f.next
      && s'.stack == Below(s)[|s.stack| - 2 := f'] && s'.d == s.d.(backlog := s.d.backlog[f.wkr := []])
      && s'.bufs == s.bufs && s'.retired == s.retired && s'.sub == s.sub && s'.out == s.out && s'.fin == s.fin
      && Sized(s') && FramesOk(s') && LatchOk(s')
  {
    var f := s.stack[|s.stack| - 2];
    assert FrameSane(f, |s.bufs|) && f.pc == Closing;
    LeftFrames(s, Advance(f, |s.bufs|));
  }

  lemma LeftPriv(s: State, w: nat, stale: set<nat>, tag: Tag)
    requires Sized(s) && PrivOk(s.d, Stale(s.stack), tag) && BufsOk(s, tag) && w < |s.bufs|
    requires w in Stale(s.stack) && stale <= Stale(s.stack) <= stale + {w}
    ensures var d := s.d.(backlog := s.d.backlog[w := []]);
      && PrivOk(d, stale, tag) && BufOk(d, s.bufs[w], s.retired[w], w, stale, tag)
      && forall t: nat :: Live(d, t) == Live(s.d, t)
  {
    hide BacklogOk, Stale, Live;
    assert BufOk(s.d, s.bufs[w], s.retired[w], w, Stale(s.stack), tag);
    DropOk(s.d, w, Stale(s.stack), stale, tag);
  }

  lemma LeftOrders(s: State, s': State, f: Frame, tag: Tag)
    requires Sized(s) && FramesOk(s) &&
      (forall t: nat :: InOrder(s, t, tag)) && |s.stack| >= 2 && Sized(s') && FramesOk(s') && TopOf(s).kind != Main
    requires s'.stack == Below(s)[|s.stack| - 2 := f] && s'.out == s.out && s'.sub == s.sub && f.idx <= |f.mbufs|
    requires Pending(f) == Pending(s.stack[|s.stack| - 2]) && forall t: nat :: Live(s'.d, t) == Live(s.d, t)
    ensures forall t: nat :: InOrder(s', t, tag)
  {
    hide InOrder, Live;
    forall t: nat ensures InOrder(s', t, tag) {
      assert InOrder(s, t, tag);
      LeftOrder(s, s', f, t, tag);
    }
  }

  lemma ConservedSame(s: State, s': State)
    requires Conserved(s) && s'.bufs == s.bufs && s'.out == s.out && s'.fin == s.fin
    ensures Conserved(s')
  {
  }

  // ------------------------------------------------------------------------- every step

  lemma ServeKeeps(s: State, tag: Tag)
    requires Inv(s, tag) && MayTick(s) && TopOf(s).pc.Ready?
    ensures Inv(Serve(s, TopOf(s).pc.data, tag), tag)
  {
    hide Inv;
    var f := TopOf(s);
    var w := f.wkr;
    assert FrameSane(f, |s.bufs|);
    if f.pc.data.flag == Get && s.d.backlog[w] != [] {
      GiveQueuedKeeps(s, tag);
    } else if f.pc.data.flag == Get && f.kind == Main && f.next != 0 {
      GiveNextKeeps(s, tag);
    } else if f.pc.data.flag == Get && f.kind == Returns {
      OffKeeps(s, Buf(Get, 0), tag);
    } else if f.pc.data.flag == Ret && f.kind != Final {
      if s.d.backlog[w] == [] {
        OffKeeps(s, Buf(NoBuf, 0), tag);
        assert Shutdown(s) == SetTop(s, Advance(f, |s.bufs|)).(bufs := s.bufs[w := Buf(NoBuf, 0)], d := Off(s.d, w));
      } else {
        ShutdownKeeps(s, tag);
      }
    } else {
      TopNextOk(s, tag);
      TopMoves(s, Advance(f, |s.bufs|), tag);
    }
  }

  lemma TopNextOk(s: State, tag: Tag)
    requires Inv(s, tag) && MayTick(s)
    ensures Sized(s) && FramesOk(s)
  {
  }

  lemma FetchKeeps(s: State, tag: Tag)
    requires Inv(s, tag) && MayTick(s) && TopOf(s).pc.Latched? && TopOf(s).kind == Main && TopOf(s).next == 0
    ensures Inv(Fetch(s, TopOf(s).pc.data, tag), tag)
  {
    hide Inv;
    InvSized(s, tag);
    var f := TopOf(s);
    assert FrameSane(f, |s.bufs|);
    var w := Worker(s.d, tag(f.mbufs[f.idx]));
    if w >= |s.bufs| {
      FetchPending(s, f.pc.data, tag);
    } else if |s.d.backlog[w]| == BACKLOG_SIZE {
      TopMoves(s, f.(pc := Ready(f.pc.data)), tag);
    } else {
      BacklogRoom(s, w, tag);
      FetchQueued(s, f.pc.data, tag);
    }
  }

  lemma BacklogRoom(s: State, w: nat, tag: Tag)
    requires Inv(s, tag) && w < |s.bufs|
    ensures |s.d.backlog[w]| <= BACKLOG_SIZE
  {
    assert BacklogOk(s.d, w, Stale(s.stack), tag);
  }

  lemma TickKeeps(s: State, tag: Tag)
    requires Inv(s, tag) && MayTick(s)
    ensures Inv(Tick(s, tag), tag)
  {
    hide Inv, InFlight, Serve, Fetch, Leave;
    InvSized(s, tag);
    var f := TopOf(s);
    assert FrameSane(f, |s.bufs|);
    match f.pc
    case Top =>
      if f.kind == Main && f.idx == |f.mbufs| && f.next == 0 {
        TopMoves(s, Frame(Final, [], 0, 0, 0, Top), tag);
      } else if f.kind == Main || f.wkr < |s.bufs| {
        TopMoves(s, f.(pc := Latched(s.bufs[f.wkr])), tag);
      } else if |s.stack| == 1 {
        LeaveLast(s, tag);
      } else {
        LeaveKeeps(s, tag);
      }
    case Latched(data) =>
      if f.kind == Main && f.next == 0 {
        FetchKeeps(s, tag);
      } else {
        TopMoves(s, f.(pc := Ready(data)), tag);
      }
    case Ready(data) =>
      ServeKeeps(s, tag);
  }

  lemma StepKeeps(s: State, e: Event, s': State, tag: Tag)
    requires Inv(s, tag) && Step(s, e, s', tag)
    ensures Inv(s', tag)
  {
    hide Inv;
    match e
    case Requests(w, o) => WorkerKeeps(s, w, Buf(Get, o), s.retired, tag);
    case Returns_(w, o) => WorkerKeeps(s, w, Buf(Ret, o), s.retired[w := true], tag);
    case Calls(mbufs) => CallKeeps(s, mbufs, tag);
    case Ticks => TickKeeps(s, tag);
  }

  lemma InitInv(n: nat, tag: Tag)
    requires n > 0
    ensures Inv(Init(n), tag)
  {
    var s := Init(n);
    assert Stale(s.stack) == {};
    forall t: nat ensures InOrder(s, t, tag) {
      assert Worker(s.d, t) == n;
    }
    forall p: nat | p != 0 ensures Held(s.bufs, p) == 0 {
      NoneHeld(s.bufs, p);
    }
  }

  lemma {:induction false} NoneHeld(bufs: seq<Buf>, p: nat)
    requires forall w :: 0 <= w < |bufs| ==> HeldBy(bufs[w], p) == 0
    ensures Held(bufs, p) == 0
  {
    if bufs != [] {
      NoneHeld(bufs[..|bufs| - 1], p);
    }
  }

  /** The invariant holds in every state of every run. */
  lemma {:induction false} RunKeeps(run: seq<State>, events: seq<Event>, n: nat, tag: Tag, i: nat)
    requires IsRun(run, events, n, tag) && n > 0 && i < |run|
    ensures Inv(run[i], tag)
  {
    if i == 0 {
      InitInv(n, tag);
    } else {
      RunKeeps(run, events, n, tag, i - 1);
      StepKeeps(run[i - 1], events[i - 1], run[i], tag);
    }
  }
}
