/**
  What the distributor promises, in every state of every run.
*/
module DistTheorems {
  import opened DistState
  import opened DistInv
  import opened DistSteps

  /** Worker `w` holds packet `p`. */
  predicate Holds(s: State, w: nat, p: nat) { w < |s.bufs| && s.bufs[w] == Buf(NoBuf, p) && p != 0 }

  /** No two workers hold packets of the same flow. */
  lemma FlowAtomicity(run: seq<State>, events: seq<Event>, n: nat, tag: Tag, i: nat, a: nat, b: nat, p: nat, q: nat)
    requires IsRun(run, events, n, tag) && n > 0 && i < |run|
    requires Holds(run[i], a, p) && Holds(run[i], b, q) && tag(p) == tag(q)
    ensures a == b
  {
    RunKeeps(run, events, n, tag, i);
    var s := run[i];
    assert BufOk(s.d, s.bufs[a], s.retired[a], a, Stale(s.stack), tag);
    assert BufOk(s.d, s.bufs[b], s.retired[b], b, Stale(s.stack), tag);
    assert InFlight(s.d, a, tag(p)) && InFlight(s.d, b, tag(p));
  }

  /** What waits behind a worker is of the flow the worker holds. */
  lemma BacklogOfFlow(run: seq<State>, events: seq<Event>, n: nat, tag: Tag, i: nat, w: nat, p: nat)
    requires IsRun(run, events, n, tag) && n > 0 && i < |run| && Holds(run[i], w, p)
    ensures w < |run[i].d.backlog| && |run[i].d.backlog[w]| <= BACKLOG_SIZE &&
      AllTagged(run[i].d.backlog[w], tag(p), tag)
  {
    RunKeeps(run, events, n, tag, i);
    var s := run[i];
    assert BufOk(s.d, s.bufs[w], s.retired[w], w, Stale(s.stack), tag);
    assert BacklogOk(s.d, w, Stale(s.stack), tag);
  }

  /** Packets of a flow are handed out in the order of submission. */
  lemma FlowOrder(run: seq<State>, events: seq<Event>, n: nat, tag: Tag, i: nat, t: nat)
    requires IsRun(run, events, n, tag) && n > 0 && i < |run|
    ensures OfTag(run[i].out, t, tag) <= OfTag(run[i].sub, t, tag)
  {
    RunKeeps(run, events, n, tag, i);
    assert InOrder(run[i], t, tag);
    PrefixOf(OfTag(run[i].out, t, tag), Live(run[i].d, t), OfTag(AllPending(run[i].stack), t, tag));
  }

  lemma PrefixOf(a: seq<nat>, b: seq<nat>, c: seq<nat>)
    ensures a <= a + b + c
  {
  }

  // ------------------------------------------------------------------------- exactly once

  lemma {:induction false} OfTagCount(q: seq<nat>, p: nat, tag: Tag)
    ensures multiset(OfTag(q, tag(p), tag))[p] == multiset(q)[p]
  {
    if q != [] {
      var n := |q| - 1;
      OfTagCount(q[..n], p, tag);
      assert q == q[..n] + [q[n]];
    }
  }

  /**
    Each time a packet was submitted it is now in exactly one place: finished, held by a worker,
    in the backlog of the worker that has its flow, or not yet placed by a call.
  */
  lemma ExactlyOnce(run: seq<State>, events: seq<Event>, n: nat, tag: Tag, i: nat, p: nat)
    requires IsRun(run, events, n, tag) && n > 0 && i < |run| && p != 0
    ensures var s := run[i];
      && Sized(s) && FramesOk(s)
      && multiset(s.sub)[p] ==
           multiset(s.fin)[p] + Held(s.bufs, p) + multiset(Live(s.d, tag(p)))[p] + multiset(AllPending(s.stack))[p]
  {
    RunKeeps(run, events, n, tag, i);
    Located(run[i], p, tag);
  }

  lemma Located(s: State, p: nat, tag: Tag)
    requires Inv(s, tag) && p != 0
    ensures multiset(s.sub)[p] ==
      multiset(s.fin)[p] + Held(s.bufs, p) + multiset(Live(s.d, tag(p)))[p] + multiset(AllPending(s.stack))[p]
  {
    var t := tag(p);
    assert InOrder(s, t, tag);
    OfTagCount(s.sub, p, tag);
    OfTagCount(s.out, p, tag);
    OfTagCount(AllPending(s.stack), p, tag);
    CountConcat(OfTag(s.out, t, tag), Live(s.d, t), OfTag(AllPending(s.stack), t, tag), p);
  }

  lemma CountConcat(a: seq<nat>, b: seq<nat>, c: seq<nat>, p: nat)
    ensures multiset(a + b + c)[p] == multiset(a)[p] + multiset(b)[p] + multiset(c)[p]
  {
  }

  // -------------------------------------------------------------------------------- flush

  function CountTrue(mask: seq<bool>): nat {
    if mask == [] then 0 else CountTrue(mask[..|mask| - 1]) + if mask[|mask| - 1] then 1 else 0
  }

  function CountQueued(backlog: seq<seq<nat>>): nat {
    if backlog == [] then 0 else CountQueued(backlog[..|backlog| - 1]) + |backlog[|backlog| - 1]|
  }

  /** `total_outstanding`. */
  function Outstanding(d: Priv): nat { CountTrue(d.mask) + CountQueued(d.backlog) }

  lemma {:induction false} NoneSet(mask: seq<bool>, w: nat)
    requires CountTrue(mask) == 0 && w < |mask|
    ensures !mask[w]
  {
    if w < |mask| - 1 {
      NoneSet(mask[..|mask| - 1], w);
    }
  }

  lemma {:induction false} NoneQueued(backlog: seq<seq<nat>>, w: nat)
    requires CountQueued(backlog) == 0 && w < |backlog|
    ensures backlog[w] == []
  {
    if w < |backlog| - 1 {
      NoneQueued(backlog[..|backlog| - 1], w);
    }
  }

  lemma {:induction false} SomeHolder(bufs: seq<Buf>, p: nat) returns (w: nat)
    requires Held(bufs, p) > 0
    ensures w < |bufs| && bufs[w] == Buf(NoBuf, p)
  {
    var n := |bufs| - 1;
    if HeldBy(bufs[n], p) == 1 {
      w := n;
    } else {
      w := SomeHolder(bufs[..n], p);
    }
  }

  /** Between calls, nothing outstanding means that every packet submitted has been finished by a worker. */
  lemma FlushedMeansDone(run: seq<State>, events: seq<Event>, n: nat, tag: Tag, i: nat)
    requires IsRun(run, events, n, tag) && n > 0 && i < |run| && run[i].stack == [] && Outstanding(run[i].d) == 0
    ensures forall w: nat, p: nat :: !Holds(run[i], w, p)
    ensures forall w :: 0 <= w < |run[i].d.backlog| ==> run[i].d.backlog[w] == []
    ensures forall p: nat :: p != 0 ==> multiset(run[i].sub)[p] == multiset(run[i].fin)[p]
  {
    RunKeeps(run, events, n, tag, i);
    var s := run[i];
    forall w: nat, p: nat ensures !Holds(s, w, p) {
      if w < |s.bufs| {
        assert BufOk(s.d, s.bufs[w], s.retired[w], w, Stale(s.stack), tag);
        NoneSet(s.d.mask, w);
      }
    }
    forall w | 0 <= w < |s.d.backlog| ensures s.d.backlog[w] == [] {
      NoneQueued(s.d.backlog, w);
    }
    forall p: nat | p != 0 ensures multiset(s.sub)[p] == multiset(s.fin)[p] {
      Located(s, p, tag);
      if Held(s.bufs, p) > 0 {
        var w := SomeHolder(s.bufs, p);
        assert Holds(s, w, p);
      }
    }
  }

  /** What a pass of `process_returns` does to its own data for a worker with a request. */
  function Answered(d: Priv, w: nat): (d': Priv)
    requires |d.tags| == |d.mask| == |d.backlog| && w < |d.tags|
    ensures |d'.tags| == |d'.mask| == |d'.backlog| == |d.tags|
  {
    if d.backlog[w] != [] then d.(backlog := d.backlog[w := d.backlog[w][1..]]) else Off(d, w)
  }

  /** A pass over workers `w` and up, all of which have a request posted. */
  function Pass(d: Priv, w: nat): Priv
    requires |d.tags| == |d.mask| == |d.backlog| && w <= |d.tags|
    decreases |d.tags| - w
  {
    if w == |d.tags| then d else Pass(Answered(d, w), w + 1)
  }

  lemma {:induction false} ClearOne(mask: seq<bool>, w: nat)
    requires w < |mask|
    ensures CountTrue(mask[w := false]) == CountTrue(mask) - if mask[w] then 1 else 0
  {
    var n := |mask| - 1;
    if w < n {
      assert mask[w := false][..n] == mask[..n][w := false];
      ClearOne(mask[..n], w);
    } else {
      assert mask[w := false][..n] == mask[..n];
    }
  }

  lemma {:induction false} PopOne(backlog: seq<seq<nat>>, w: nat)
    requires w < |backlog| && backlog[w] != []
    ensures CountQueued(backlog[w := backlog[w][1..]]) == CountQueued(backlog) - 1
  {
    var n := |backlog| - 1;
    if w < n {
      assert backlog[w := backlog[w][1..]][..n] == backlog[..n][w := backlog[w][1..]];
      PopOne(backlog[..n], w);
    } else {
      assert backlog[w := backlog[w][1..]][..n] == backlog[..n];
    }
  }

  ghost predicate Busy(d: Priv, w: nat) { w < |d.mask| && w < |d.backlog| && (d.mask[w] || d.backlog[w] != []) }

  lemma AnsweredCounts(d: Priv, w: nat)
    requires |d.tags| == |d.mask| == |d.backlog| && w < |d.tags|
    ensures Outstanding(Answered(d, w)) == Outstanding(d) - if Busy(d, w) then 1 else 0
  {
    if d.backlog[w] != [] {
      PopOne(d.backlog, w);
    } else {
      ClearOne(d.mask, w);
    }
  }

  /** Workers from `w` on that have a flow or a backlog. */
  ghost function BusyFrom(d: Priv, w: nat): nat
    requires |d.tags| == |d.mask| == |d.backlog| && w <= |d.tags|
    decreases |d.tags| - w
  {
    if w == |d.tags| then 0 else (if Busy(d, w) then 1 else 0) + BusyFrom(d, w + 1)
  }

  lemma {:induction false} BusyAfter(d: Priv, w: nat, x: nat)
    requires |d.tags| == |d.mask| == |d.backlog| && w < x <= |d.tags|
    ensures BusyFrom(Answered(d, w), x) == BusyFrom(d, x)
    decreases |d.tags| - x
  {
    if x < |d.tags| {
      assert Busy(Answered(d, w), x) <==> Busy(d, x);
      BusyAfter(d, w, x + 1);
    }
  }

  /** A pass takes one off for every busy worker. */
  lemma {:induction false} PassCounts(d: Priv, w: nat)
    requires |d.tags| == |d.mask| == |d.backlog| && w <= |d.tags|
    ensures Outstanding(Pass(d, w)) == Outstanding(d) - BusyFrom(d, w)
    decreases |d.tags| - w
  {
    if w < |d.tags| {
      AnsweredCounts(d, w);
      BusyAfter(d, w, w + 1);
      PassCounts(Answered(d, w), w + 1);
    }
  }

  lemma {:induction false} BusyCounted(d: Priv, w: nat, x: nat)
    requires |d.tags| == |d.mask| == |d.backlog| && w <= x < |d.tags| && Busy(d, x)
    ensures BusyFrom(d, w) > 0
    decreases x - w
  {
    if w < x { BusyCounted(d, w + 1, x); }
  }

  lemma {:induction false} SomeTrue(mask: seq<bool>)
    requires CountTrue(mask) > 0
    ensures exists w :: 0 <= w < |mask| && mask[w]
  {
    var n := |mask| - 1;
    if !mask[n] {
      SomeTrue(mask[..n]);
      var w :| 0 <= w < n && mask[..n][w];
      assert mask[w];
    }
  }

  lemma {:induction false} SomeQueued(backlog: seq<seq<nat>>)
    requires CountQueued(backlog) > 0
    ensures exists w :: 0 <= w < |backlog| && backlog[w] != []
  {
    var n := |backlog| - 1;
    if backlog[n] == [] {
      SomeQueued(backlog[..n]);
      var w :| 0 <= w < n && backlog[..n][w] != [];
      assert backlog[w] != [];
    }
  }

  /** What is outstanding is with some worker. */
  lemma SomeBusy(d: Priv)
    requires |d.tags| == |d.mask| == |d.backlog| && Outstanding(d) > 0
    ensures BusyFrom(d, 0) > 0
  {
    if CountTrue(d.mask) > 0 {
      SomeTrue(d.mask);
      var w :| 0 <= w < |d.mask| && d.mask[w];
      BusyCounted(d, 0, w);
    } else {
      SomeQueued(d.backlog);
      var w :| 0 <= w < |d.backlog| && d.backlog[w] != [];
      BusyCounted(d, 0, w);
    }
  }

  /** Inside a call without packets that began when all workers had a request posted; it will leave `goal` behind. */
  ghost predicate Passing(s: State, goal: Priv) {
    && Sized(s) && |s.stack| == 1
    && var f := s.stack[0];
       && f.kind == Returns && f.wkr <= |s.bufs| && f.pc != Closing
       && (f.pc.Latched? || f.pc.Ready? ==> f.pc.data.flag == Get)
       && (forall x :: f.wkr <= x < |s.bufs| ==> s.bufs[x].flag == Get)
       && Pass(s.d, f.wkr) == goal
  }

  /** No worker returns instead of waiting for the answer to its request. */
  ghost predicate KeepsRequest(s: State, e: Event) { e.Returns_? ==> e.w < |s.bufs| && s.bufs[e.w].flag != Get }

  /** Every step of the distributor or of a worker keeps the call going to the same end. */
  lemma PassingStep(s: State, e: Event, s': State, tag: Tag, goal: Priv)
    requires Passing(s, goal) && CodeStep(s, e, s', tag) && KeepsRequest(s, e)
    ensures Passing(s', goal) || (s'.stack == [] && s'.d == goal)
  {
    var f := s.stack[0];
    if e.Ticks? {
      assert FrameSane(f, |s.bufs|);
    }
  }

  lemma {:induction false} PassingRun(run: seq<State>, events: seq<Event>, tag: Tag, k: nat, i: nat)
    requires Joined(run, events, tag) && 1 <= i <= k < |run| && events[0] == Calls([])
    requires forall w :: 0 <= w < |run[0].bufs| ==> run[0].bufs[w].flag == Get
    requires (forall x :: 1 <= x < k ==> run[x].stack != []) && forall x :: 0 <= x < k ==>
      KeepsRequest(run[x], events[x])
    requires Sized(run[0])
    ensures Passing(run[i], Pass(run[0].d, 0)) || (run[i].stack == [] && run[i].d == Pass(run[0].d, 0))
    decreases i
  {
    var goal := Pass(run[0].d, 0);
    assert CodeStep(run[i - 1], events[i - 1], run[i], tag);
    if i > 1 {
      PassingRun(run, events, tag, k, i - 1);
      PassingStep(run[i - 1], events[i - 1], run[i], tag, goal);
    }
  }

  /**
    Flush makes progress: a call without packets that begins when every worker has a request posted takes one off what
    is outstanding for every worker that had a flow or a backlog, in every interleaving in which workers wait for their
    answers.
  */
  lemma FlushProgress(run: seq<State>, events: seq<Event>, tag: Tag, k: nat)
    requires Joined(run, events, tag) && 1 <= k < |run| && events[0] == Calls([]) && Sized(run[0])
    requires forall w :: 0 <= w < |run[0].bufs| ==> run[0].bufs[w].flag == Get
    requires (forall x :: 1 <= x < k ==> run[x].stack != []) && run[k].stack == []
    requires forall x :: 0 <= x < k ==> KeepsRequest(run[x], events[x])
    ensures Outstanding(run[k].d) == Outstanding(run[0].d) - BusyFrom(run[0].d, 0)
    ensures Outstanding(run[0].d) > 0 ==> Outstanding(run[k].d) < Outstanding(run[0].d)
  {
    PassingRun(run, events, tag, k, k);
    PassCounts(run[0].d, 0);
    if Outstanding(run[0].d) > 0 {
      SomeBusy(run[0].d);
    }
  }
}
