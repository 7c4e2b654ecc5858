/**
  What the distributor gets done: the main loop of a call reads the workers in turn, and within one round
  a pending packet is handed out and every request that can be answered is.
*/
module DistProgress {
  import opened DistState
  import opened DistInv
  import opened DistSteps

  // -------------------------------------------------------------------------- the turns

  /** Call number `k`, counted from the outermost, is in its main loop. */
  ghost predicate InMain(s: State, k: nat) {
    Sized(s) && k < |s.stack| && s.stack[k].kind == Main && s.stack[k].wkr < |s.bufs|
  }

  /** A turn of the main loop of call `k` begins: the word of a worker is read. */
  ghost predicate Reads(s: State, s': State, k: nat) {
    && |s.stack| == |s'.stack| == k + 1
    && s.stack[k].kind == Main && s.stack[k].pc == Top && s'.stack[k].pc.Latched?
  }

  /** The worker after `w`, in a circle. */
  function After(w: nat, n: nat): nat { if w + 1 >= n then 0 else w + 1 }

  /** What a step does to call `k`. */
  ghost predicate Turned(s: State, s': State, k: nat)
    requires k < |s.stack| && k < |s'.stack|
  {
    var f, f' := s.stack[k], s'.stack[k];
    if f.pc == Top then
      if Reads(s, s', k) then f'.kind == Main && f'.wkr == f.wkr && f'.pc != Top
      else f' == f || f'.kind == Final
    else
      && f'.kind == Main
      && (if f'.pc == Top then f'.wkr == After(f.wkr, |s.bufs|) else f'.wkr == f.wkr)
  }

  lemma TurnBelow(s: State, tag: Tag, k: nat)
    requires MayTick(s) && InMain(s, k) && k < |s.stack| - 1
    ensures var s' := Tick(s, tag);
      |s'.bufs| == |s.bufs| && Sized(s') && k < |s'.stack| && Turned(s, s', k) && InMain(s', k)
  {
    assert s.stack[k].pc == Closing && FrameSane(TopOf(s), |s.bufs|);
  }

  lemma TurnTop(s: State, tag: Tag)
    requires MayTick(s) && InMain(s, |s.stack| - 1)
    ensures var s', k := Tick(s, tag), |s.stack| - 1;
      && |s'.bufs| == |s.bufs| && Sized(s') && k < |s'.stack| && Turned(s, s', k)
      && (s'.stack[k].kind == Main ==> InMain(s', k))
  {
    assert FrameSane(TopOf(s), |s.bufs|);
  }

  lemma TurnStep(s: State, e: Event, s': State, tag: Tag, k: nat)
    requires CodeStep(s, e, s', tag) && InMain(s, k) && k < |s'.stack|
    ensures |s'.bufs| == |s.bufs| && Sized(s') && Turned(s, s', k)
    ensures s'.stack[k].kind == Main ==> InMain(s', k)
  {
    if e.Ticks? {
      hide Tick;
      if k < |s.stack| - 1 {
        TurnBelow(s, tag, k);
      } else {
        TurnTop(s, tag);
      }
    }
  }

  /** Between a turn for worker `w` and the next one. */
  ghost predicate Between(s: State, k: nat, w: nat, n: nat) {
    && Sized(s) && |s.bufs| == n && k < |s.stack|
    && var f := s.stack[k];
       f.kind == Final || (InMain(s, k) && f.wkr == if f.pc == Top then After(w, n) else w)
  }

  lemma {:induction false} StaysBetween(run: seq<State>, events: seq<Event>, tag: Tag, k: nat, i: nat, j: nat)
    requires Joined(run, events, tag) && i < j < |run| && InMain(run[i], k) && Reads(run[i], run[i + 1], k)
    requires forall x :: i <= x <= j ==> k < |run[x].stack|
    requires forall x :: i < x < j ==> !Reads(run[x], run[x + 1], k)
    ensures Between(run[j], k, run[i].stack[k].wkr, |run[i].bufs|)
    decreases j
  {
    hide CodeStep, Turned, Reads;
    assert CodeStep(run[j - 1], events[j - 1], run[j], tag);
    if j == i + 1 {
      TurnStep(run[i], events[i], run[j], tag, k);
      TurnedBetween(run[i], run[j], k, run[i].stack[k].wkr, |run[i].bufs|);
    } else {
      StaysBetween(run, events, tag, k, i, j - 1);
      if run[j - 1].stack[k].kind == Main {
        TurnStep(run[j - 1], events[j - 1], run[j], tag, k);
        TurnedBetween(run[j - 1], run[j], k, run[i].stack[k].wkr, |run[i].bufs|);
      } else {
        FinalStays(run[j - 1], events[j - 1], run[j], tag, k);
      }
    }
  }

  lemma TurnedBetween(s: State, s': State, k: nat, w: nat, n: nat)
    requires InMain(s, k) && Sized(s') && k < |s'.stack| && Turned(s, s', k) && |s'.bufs| == |s.bufs| == n
    requires s'.stack[k].kind == Main ==> InMain(s', k)
    requires if Reads(s, s', k) then s.stack[k].wkr == w else Between(s, k, w, n)
    ensures Between(s', k, w, n)
  {
  }

  /** The closing loop of a call is its last. */
  lemma FinalStays(s: State, e: Event, s': State, tag: Tag, k: nat)
    requires CodeStep(s, e, s', tag) && Sized(s) && k < |s.stack| && k < |s'.stack| && s.stack[k].kind == Final
    ensures Sized(s') && |s'.bufs| == |s.bufs| && s'.stack[k].kind == Final
  {
    if e.Ticks? {
      assert FrameSane(s.stack[k], |s.bufs|) && FrameSane(TopOf(s), |s.bufs|);
      if k < |s.stack| - 1 {
        assert s.stack[k].pc == Closing;
        KindsBelow(s, tag, k);
      }
    }
  }

  lemma KindsBelow(s: State, tag: Tag, k: nat)
    requires MayTick(s) && k < |s.stack| - 1
    ensures var s' := Tick(s, tag);
      && |s'.bufs| == |s.bufs| && Sized(s') && k < |s'.stack|
      && s'.stack[k].kind == s.stack[k].kind && s'.stack[k].next == s.stack[k].next
  {
    assert FrameSane(TopOf(s), |s.bufs|);
  }

  /** The turns of a call read the workers one after the other, in a circle, whatever happens in between. */
  lemma RoundRobin(run: seq<State>, events: seq<Event>, tag: Tag, k: nat, i: nat, j: nat)
    requires Joined(run, events, tag) && i < j < |run| - 1 && Sized(run[i]) && InMain(run[i], k)
    requires Reads(run[i], run[i + 1], k) && Reads(run[j], run[j + 1], k)
    requires forall x :: i < x < j ==> !Reads(run[x], run[x + 1], k)
    requires forall x :: i <= x <= j ==> k < |run[x].stack|
    ensures run[j].stack[k].wkr == (run[i].stack[k].wkr + 1) % |run[i].bufs|
  {
    hide Joined;
    StaysBetween(run, events, tag, k, i, j);
    AfterIs(run[i].stack[k].wkr, |run[i].bufs|);
  }

  lemma AfterIs(w: nat, n: nat)
    requires w < n
    ensures After(w, n) == (w + 1) % n
  {
  }

  /** A call begins with the first worker. */
  lemma FirstTurn(s: State, e: Event, s': State, tag: Tag, k: nat)
    requires CodeStep(s, e, s', tag) && |s.stack| <= k < |s'.stack|
    ensures s'.stack[k].wkr == 0 && s'.stack[k].pc == Top
  {
  }

  // ------------------------------------------------------------------------ counting turns

  /** Turns of call `k` that begin between states `a` and `b`. */
  ghost function Turns(run: seq<State>, k: nat, a: nat, b: nat): nat
    requires b < |run|
  {
    if b <= a then 0 else Turns(run, k, a, b - 1) + if Reads(run[b - 1], run[b], k) then 1 else 0
  }

  /** How far worker `v` is ahead of `w`, in a circle. */
  function Ahead(w: nat, v: nat, n: nat): nat
    requires w < n && v < n
  {
    if w <= v then v - w else v + n - w
  }

  /** Turns of call `k` up to the one for worker `v`. */
  ghost function TurnsTo(s: State, k: nat, v: nat): nat
    requires InMain(s, k) && v < |s.bufs|
  {
    Ahead(s.stack[k].wkr, v, |s.bufs|) + if s.stack[k].pc == Top then 1 else 0
  }

  lemma TurnsToStep(s: State, s': State, k: nat, v: nat)
    requires InMain(s, k) && InMain(s', k) && |s.bufs| == |s'.bufs| && v < |s.bufs| && Turned(s, s', k)
    requires s.stack[k].wkr == v && s.stack[k].pc != Top ==> s'.stack[k].pc != Top
    ensures TurnsTo(s', k, v) + (if Reads(s, s', k) then 1 else 0) == TurnsTo(s, k, v)
  {
  }

  /** If call `k` is at worker `v`, it has read a flagged word there and not yet answered it. */
  ghost predicate Latches(s: State, k: nat, v: nat)
    requires InMain(s, k)
  {
    var f := s.stack[k];
    f.wkr == v && f.pc != Top ==> |s.stack| == k + 1 && (f.pc.Latched? || f.pc.Ready?) && f.pc.data.flag != NoBuf
  }

  ghost predicate Acts(e: Event, v: nat) { (e.Requests? || e.Returns_?) && e.w == v }

  // -------------------------------------------------------------------- the pending packet

  /** A packet is pending in call `k` and worker `v` has a request posted. */
  ghost predicate Placing(s: State, k: nat, v: nat) {
    InMain(s, k) && v < |s.bufs| && s.stack[k].next != 0 && s.bufs[v].flag == Get && Latches(s, k, v)
  }

  lemma PlaceBelow(s: State, tag: Tag, k: nat, v: nat)
    requires Inv(s, tag) && MayTick(s) && Placing(s, k, v) && k < |s.stack| - 1
    ensures var s' := Tick(s, tag); |s'.out| > |s.out| || (Placing(s', k, v) && s'.out == s.out)
  {
    assert s.stack[k].pc == Closing && FrameSane(TopOf(s), |s.bufs|) && LatchOk(s);
    hide Inv, Tick;
    PlaceTick(s, tag, v);
    KindsBelow(s, tag, k);
    TurnBelow(s, tag, k);
  }

  lemma PlaceTick(s: State, tag: Tag, v: nat)
    requires MayTick(s) && LatchOk(s) && v < |s.bufs| && s.bufs[v].flag == Get
    ensures var s' := Tick(s, tag);
      |s'.out| > |s.out| || (s'.out == s.out && |s'.bufs| == |s.bufs| && s'.bufs[v].flag == Get)
  {
    var f := TopOf(s);
    assert FrameSane(f, |s.bufs|);
    if f.pc.Ready? {
      hide Serve;
      PlaceServe(s, f.pc.data, tag, v);
    }
  }

  lemma PlaceServe(s: State, data: Buf, tag: Tag, v: nat)
    requires MayTick(s) && TopOf(s).wkr < |s.bufs| && v < |s.bufs| && s.bufs[v].flag == Get
    requires TopOf(s).wkr == v && data.flag != NoBuf ==> data == s.bufs[v]
    ensures var s' := Serve(s, data, tag);
      |s'.out| > |s.out| || (s'.out == s.out && |s'.bufs| == |s.bufs| && s'.bufs[v].flag == Get)
  {
  }

  lemma PlaceTop(s: State, tag: Tag, v: nat)
    requires Inv(s, tag) && MayTick(s) && Placing(s, |s.stack| - 1, v)
    ensures var s', k := Tick(s, tag), |s.stack| - 1;
      || |s'.out| > |s.out|
      || (&& Placing(s', k, v) && s'.out == s.out
          && (s.stack[k].wkr == v && s.stack[k].pc != Top ==> s'.stack[k].pc != Top))
  {
    assert FrameSane(TopOf(s), |s.bufs|) && LatchOk(s);
  }

  lemma PlaceStep(s: State, e: Event, s': State, tag: Tag, k: nat, v: nat)
    requires Inv(s, tag) && CodeStep(s, e, s', tag) && Placing(s, k, v) && !Acts(e, v)
    ensures |s'.out| >= |s.out|
    ensures |s'.out| == |s.out| ==> Placing(s', k, v) && |s'.bufs| == |s.bufs|
    ensures |s'.out| == |s.out| ==>
      TurnsTo(s', k, v) + (if Reads(s, s', k) then 1 else 0) == TurnsTo(s, k, v)
  {
    hide Inv, Tick, Turned, TurnsTo;
    if e.Ticks? {
      if k < |s.stack| - 1 {
        PlaceBelow(s, tag, k, v);
      } else {
        PlaceTop(s, tag, v);
      }
    }
    if |s'.out| == |s.out| {
      TurnStep(s, e, s', tag, k);
      TurnsToStep(s, s', k, v);
    }
  }

  /** While nothing is handed out the turns are counted down. */
  lemma {:induction false} PlacingRun(run: seq<State>, events: seq<Event>, n: nat, tag: Tag, k: nat, v: nat, a: nat,
      b: nat)
    requires IsRun(run, events, n, tag) && n > 0 && a <= b < |run|
    requires Placing(run[a], k, v) && forall x :: a <= x < b ==> !Acts(events[x], v)
    ensures |run[b].out| >= |run[a].out|
    ensures |run[b].out| == |run[a].out| ==>
      Placing(run[b], k, v) && Turns(run, k, a, b) + TurnsTo(run[b], k, v) == TurnsTo(run[a], k, v)
    decreases b
  {
    hide Inv, CodeStep, Reads, TurnsTo;
    if a < b {
      PlacingRun(run, events, n, tag, k, v, a, b - 1);
      RunKeeps(run, events, n, tag, b - 1);
      assert CodeStep(run[b - 1], events[b - 1], run[b], tag);
      if |run[b - 1].out| == |run[a].out| {
        PlaceStep(run[b - 1], events[b - 1], run[b], tag, k, v);
      } else {
        OutGrows(run[b - 1], events[b - 1], run[b], tag);
      }
    }
  }

  lemma OutGrows(s: State, e: Event, s': State, tag: Tag)
    requires CodeStep(s, e, s', tag)
    ensures |s'.out| >= |s.out|
  {
  }

  /**
    With a packet pending in a call and a request posted by a worker, a packet is handed out before the call has gone
    once around and begins the turn after that worker's.
  */
  lemma PendingIsPlaced(run: seq<State>, events: seq<Event>, n: nat, tag: Tag, k: nat, v: nat, a: nat, b: nat)
    requires IsRun(run, events, n, tag) && n > 0 && a <= b < |run| && v < n
    requires InMain(run[a], k) && run[a].stack[k].next != 0 && run[a].stack[k].pc == Top
    requires |run[a].bufs| == n && run[a].bufs[v].flag == Get
    requires forall x :: a <= x < b ==> !Acts(events[x], v)
    requires Turns(run, k, a, b) > Ahead(run[a].stack[k].wkr, v, n) + 1
    ensures |run[b].out| > |run[a].out|
  {
    hide Inv, CodeStep, Turns;
    PlacingRun(run, events, n, tag, k, v, a, b);
  }

  // ------------------------------------------------------- a request with a backlog, or a return

  /** Worker `v` waits with word `word`: a request, with packet `p` first in its backlog, or a return. */
  ghost predicate Waiting(s: State, v: nat, word: Buf, p: nat) {
    && Sized(s) && v < |s.bufs| && s.bufs[v] == word && word.flag != NoBuf
    && (word.flag == Get ==> s.d.backlog[v] != [] && s.d.backlog[v][0] == p)
  }

  /** The word is answered: a request with that packet, a return by clearing the word and ending the flow. */
  ghost predicate Answers(s: State, s': State, v: nat, word: Buf, p: nat) {
    && v < |s'.bufs| && v < |s'.d.mask|
    && if word.flag == Get then s'.bufs[v] == Buf(NoBuf, p) && s'.out == s.out + [p]
       else s'.bufs[v] == Buf(NoBuf, 0) && !s'.d.mask[v] && s'.out == s.out
  }

  ghost predicate WaitingIn(s: State, k: nat, v: nat, word: Buf, p: nat) {
    InMain(s, k) && Waiting(s, v, word, p) && Latches(s, k, v)
  }

  lemma StaleBelow(stack: seq<Frame>)
    ensures forall i :: 0 <= i < |stack| && stack[i].pc == Closing ==> stack[i].wkr in Stale(stack)
  {
  }

  /** A worker that waits is not one whose backlog is being distributed again. */
  lemma NotStale(s: State, tag: Tag, v: nat)
    requires Inv(s, tag) && v < |s.bufs| && s.bufs[v].flag != NoBuf
    ensures forall i :: 0 <= i < |s.stack| && s.stack[i].pc == Closing ==> s.stack[i].wkr != v
  {
    assert BufOk(s.d, s.bufs[v], s.retired[v], v, Stale(s.stack), tag);
    StaleBelow(s.stack);
  }

  lemma WaitLeave(s: State, v: nat, word: Buf, p: nat)
    requires MayTick(s) && Waiting(s, v, word, p)
    requires forall i :: 0 <= i < |s.stack| && s.stack[i].pc == Closing ==> s.stack[i].wkr != v
    ensures Waiting(Leave(s), v, word, p)
  {
  }

  lemma WaitFetch(s: State, data: Buf, tag: Tag, v: nat, word: Buf, p: nat)
    requires MayTick(s) && Waiting(s, v, word, p) && TopOf(s).idx < |TopOf(s).mbufs|
    ensures Waiting(Fetch(s, data, tag), v, word, p)
  {
  }

  lemma WaitServe(s: State, data: Buf, tag: Tag, v: nat, word: Buf, p: nat)
    requires MayTick(s) && Waiting(s, v, word, p) && TopOf(s).wkr < |s.bufs|
    requires TopOf(s).wkr == v && data.flag != NoBuf ==> data == word
    ensures Answers(s, Serve(s, data, tag), v, word, p) || Waiting(Serve(s, data, tag), v, word, p)
    ensures TopOf(s).wkr == v && data.flag != NoBuf && TopOf(s).kind == Main ==>
      Answers(s, Serve(s, data, tag), v, word, p)
  {
  }

  lemma WaitTick(s: State, tag: Tag, v: nat, word: Buf, p: nat)
    requires Inv(s, tag) && MayTick(s) && Waiting(s, v, word, p)
    ensures var s' := Tick(s, tag); Answers(s, s', v, word, p) || Waiting(s', v, word, p)
  {
    var f := TopOf(s);
    assert FrameSane(f, |s.bufs|) && LatchOk(s);
    NotStale(s, tag, v);
    hide Inv, LatchOk, Leave, Fetch, Serve, Answers;
    match f.pc
    case Top => WaitLeave(s, v, word, p);
    case Latched(data) =>
      if f.kind == Main && f.next == 0 {
        WaitFetch(s, data, tag, v, word, p);
      }
    case Ready(data) => WaitServe(s, data, tag, v, word, p);
    case Closing =>
  }

  /** A turn for a worker that waits does not end without an answer. */
  lemma WaitTurn(s: State, tag: Tag, v: nat, word: Buf, p: nat)
    requires Inv(s, tag) && MayTick(s) && WaitingIn(s, |s.stack| - 1, v, word, p)
    ensures var s', k := Tick(s, tag), |s.stack| - 1;
      InMain(s', k) ==>
        || Answers(s, s', v, word, p)
        || (Latches(s', k, v) && (s.stack[k].wkr == v && s.stack[k].pc != Top ==> s'.stack[k].pc != Top))
  {
    var f := TopOf(s);
    assert FrameSane(f, |s.bufs|) && LatchOk(s);
    hide Inv, LatchOk, Leave, Answers;
    if f.pc.Ready? {
      hide Serve;
      WaitServe(s, f.pc.data, tag, v, word, p);
      TurnTop(s, tag);
    }
  }

  lemma WaitStep(s: State, e: Event, s': State, tag: Tag, k: nat, v: nat, word: Buf, p: nat)
    requires Inv(s, tag) && CodeStep(s, e, s', tag) && WaitingIn(s, k, v, word, p) && InMain(s', k) && !Acts(e, v)
    ensures Answers(s, s', v, word, p) || WaitingIn(s', k, v, word, p)
    ensures !Answers(s, s', v, word, p) ==>
      |s'.bufs| == |s.bufs| && TurnsTo(s', k, v) + (if Reads(s, s', k) then 1 else 0) == TurnsTo(s, k, v)
  {
    hide Inv, Tick, TurnsTo, Answers;
    TurnStep(s, e, s', tag, k);
    if e.Ticks? {
      WaitTick(s, tag, v, word, p);
      if k == |s.stack| - 1 {
        WaitTurn(s, tag, v, word, p);
      } else {
        assert s.stack[k].pc == Closing;
      }
    }
    if !Answers(s, s', v, word, p) {
      TurnsToStep(s, s', k, v);
    }
  }

  ghost predicate AnsweredIn(run: seq<State>, v: nat, word: Buf, p: nat, a: nat, b: nat)
    requires b < |run|
  {
    exists x :: a <= x < b && Answers(run[x], run[x + 1], v, word, p)
  }

  lemma {:induction false} WaitingRun(run: seq<State>, events: seq<Event>, n: nat, tag: Tag, k: nat, v: nat, word: Buf,
      p: nat, a: nat, b: nat)
    requires IsRun(run, events, n, tag) && n > 0 && a <= b < |run| && WaitingIn(run[a], k, v, word, p)
    requires forall x :: a <= x <= b ==> InMain(run[x], k)
    requires forall x :: a <= x < b ==> !Acts(events[x], v)
    ensures AnsweredIn(run, v, word, p, a, b) ||
      (WaitingIn(run[b], k, v, word, p) && Turns(run, k, a, b) + TurnsTo(run[b], k, v) == TurnsTo(run[a], k, v))
    decreases b
  {
    hide Inv, CodeStep, Reads, TurnsTo, Answers;
    if a < b {
      WaitingRun(run, events, n, tag, k, v, word, p, a, b - 1);
      RunKeeps(run, events, n, tag, b - 1);
      assert CodeStep(run[b - 1], events[b - 1], run[b], tag);
      if !AnsweredIn(run, v, word, p, a, b - 1) {
        WaitStep(run[b - 1], events[b - 1], run[b], tag, k, v, word, p);
      }
    }
  }

  /**
    A worker with a backlog that asks is given the oldest packet of it, and one that returns is shut down, before the
    call has gone once around and begins the turn after that worker's.
  */
  lemma AnsweredInTurn(run: seq<State>, events: seq<Event>, n: nat, tag: Tag, k: nat, v: nat, p: nat, a: nat, b: nat)
    requires IsRun(run, events, n, tag) && n > 0 && a <= b < |run| && InMain(run[a], k) && v < |run[a].bufs|
    requires forall x :: a <= x <= b ==> InMain(run[x], k)
    requires run[a].stack[k].pc == Top && Waiting(run[a], v, run[a].bufs[v], p)
    requires forall x :: a <= x < b ==> !Acts(events[x], v)
    requires Turns(run, k, a, b) > Ahead(run[a].stack[k].wkr, v, |run[a].bufs|) + 1
    ensures AnsweredIn(run, v, run[a].bufs[v], p, a, b)
  {
    hide Inv, CodeStep, Turns, AnsweredIn;
    WaitingRun(run, events, n, tag, k, v, run[a].bufs[v], p, a, b);
  }

  // ------------------------------------------------------------------------ the next packet

  /** Worker `w` has the flow of the next packet of call `k`. */
  ghost predicate HasFlow(s: State, k: nat, w: nat, tag: Tag) {
    k < |s.stack| && s.stack[k].idx < |s.stack[k].mbufs| && InFlight(s.d, w, tag(s.stack[k].mbufs[s.stack[k].idx]))
  }

  /**
    Every turn without a pending packet takes the next one: it goes to the end of the backlog of the worker that has
    its flow, or is pending if there is none. It is left for a later turn exactly when that backlog has eight.
  */
  lemma TurnTakes(s: State, e: Event, s': State, tag: Tag, k: nat)
    requires Inv(s, tag) && CodeStep(s, e, s', tag) && e.Ticks? && InMain(s, k) && |s.stack| == k + 1
    requires s.stack[k].pc.Latched? && s.stack[k].next == 0
    ensures k < |s'.stack| && s.stack[k].idx < |s.stack[k].mbufs|
    ensures var f, f' := s.stack[k], s'.stack[k]; var p := f.mbufs[f.idx];
      && f'.mbufs == f.mbufs && f'.pc.Ready? && s'.out == s.out && s'.bufs == s.bufs
      && ((forall w: nat :: !HasFlow(s, k, w, tag)) ==> f'.next == p && f'.idx == f.idx + 1 && s'.d == s.d)
      && (forall w: nat :: HasFlow(s, k, w, tag) ==>
            && w < |s.d.backlog| && f'.next == 0
            && if |s.d.backlog[w]| < 8 then
                 f'.idx == f.idx + 1 && s'.d == s.d.(backlog := s.d.backlog[w := s.d.backlog[w] + [p]])
               else f'.idx == f.idx && s'.d == s.d)
  {
    var f := s.stack[k];
    assert FrameSane(f, |s.bufs|);
    var p := f.mbufs[f.idx];
    var v := Worker(s.d, tag(p));
    forall w: nat | HasFlow(s, k, w, tag) ensures w == v {
      assert InFlight(s.d, w, tag(p));
    }
    if v < |s.bufs| {
      assert HasFlow(s, k, v, tag) && BacklogOk(s.d, v, Stale(s.stack), tag);
    }
  }

  // ----------------------------------------------------------------------- the closing loop

  /** The closing loop of the innermost call has worker `v` still to look at. */
  ghost predicate Approaches(s: State, k: nat, v: nat) {
    && |s.stack| == k + 1 && s.stack[k].kind == Final
    && var f := s.stack[k];
       f.wkr < v || (f.wkr == v && (f.pc == Top || ((f.pc.Latched? || f.pc.Ready?) && f.pc.data.flag == Get)))
  }

  lemma CloseStep(s: State, e: Event, s': State, tag: Tag, k: nat, v: nat, p: nat)
    requires Inv(s, tag) && CodeStep(s, e, s', tag) && !Acts(e, v)
    requires Approaches(s, k, v) && v < |s.bufs| && Waiting(s, v, s.bufs[v], p) && s.bufs[v].flag == Get
    ensures Answers(s, s', v, s.bufs[v], p) || (Approaches(s', k, v) && Waiting(s', v, s.bufs[v], p))
  {
    var f := TopOf(s);
    assert LatchOk(s);
    if e.Ticks? {
      assert FrameSane(f, |s.bufs|);
      WaitTick(s, tag, v, s.bufs[v], p);
    }
  }

  lemma {:induction false} ClosingRun(run: seq<State>, events: seq<Event>, n: nat, tag: Tag, k: nat, v: nat, word: Buf,
      p: nat, a: nat, b: nat)
    requires IsRun(run, events, n, tag) && n > 0 && a <= b < |run| && Approaches(run[a], k, v)
    requires Waiting(run[a], v, word, p) && word.flag == Get && forall x :: a <= x < b ==> !Acts(events[x], v)
    ensures AnsweredIn(run, v, word, p, a, b) || (Approaches(run[b], k, v) && Waiting(run[b], v, word, p))
    decreases b
  {
    hide Inv, CodeStep, Answers;
    if a < b {
      ClosingRun(run, events, n, tag, k, v, word, p, a, b - 1);
      RunKeeps(run, events, n, tag, b - 1);
      assert CodeStep(run[b - 1], events[b - 1], run[b], tag);
      if !AnsweredIn(run, v, word, p, a, b - 1) {
        CloseStep(run[b - 1], events[b - 1], run[b], tag, k, v, p);
      }
    }
  }

  /**
    A call with packets stays until its closing loop, which begins with the first worker, when it has placed all of
    them.
  */
  lemma ClosingBegins(s: State, e: Event, s': State, tag: Tag, k: nat)
    requires CodeStep(s, e, s', tag) && InMain(s, k)
    ensures k < |s'.stack| && (s'.stack[k].kind == Main || s'.stack[k] == Frame(Final, [], 0, 0, 0, Top))
    ensures s'.stack[k].kind != Main ==>
      && |s'.stack| == k + 1 && s.stack[k].idx == |s.stack[k].mbufs| && s.stack[k].next == 0
      && s'.bufs == s.bufs && s'.d == s.d
  {
    if e.Ticks? {
      assert FrameSane(s.stack[k], |s.bufs|);
      if k < |s.stack| - 1 {
        hide Tick;
        TurnBelow(s, tag, k);
      }
    }
  }

  /** A call does not return before every worker with a backlog that asks has been given the oldest packet of it. */
  lemma ClosingAnswers(run: seq<State>, events: seq<Event>, n: nat, tag: Tag, k: nat, v: nat, p: nat, a: nat, b: nat)
    requires IsRun(run, events, n, tag) && n > 0 && a < b < |run| && v < |run[a].bufs|
    requires InMain(run[a], k) && k < |run[a + 1].stack| && run[a + 1].stack[k].kind == Final && |run[b].stack| <= k
    requires run[a].bufs[v].flag == Get && Waiting(run[a], v, run[a].bufs[v], p)
    requires forall x :: a <= x < b ==> !Acts(events[x], v)
    ensures AnsweredIn(run, v, run[a].bufs[v], p, a, b)
  {
    hide Inv, CodeStep, Answers;
    assert CodeStep(run[a], events[a], run[a + 1], tag);
    ClosingBegins(run[a], events[a], run[a + 1], tag, k);
    TurnStep(run[a], events[a], run[a + 1], tag, k);
    ClosingRun(run, events, n, tag, k, v, run[a].bufs[v], p, a + 1, b);
  }
}
