/**
  The packet distributor as a state machine: one distributor core that runs
  `rte_distributor_process`, and workers that share one flagged word each with it.

  Steps are as small as the accesses to the shared words: the distributor reads
  a word, works on its own data, and writes a word; a worker writes its word.
  Packets are numbers, zero is the null pointer, and `tag` gives the flow of a packet.
*/
module DistState {

  const BACKLOG_SIZE: nat := 8

  /** The low bits of a shared word. */
  datatype Flag = NoBuf | Get | Ret

  /** A shared word: a flag and a packet pointer. */
  datatype Buf = Buf(flag: Flag, ptr: nat)

  type Tag = nat -> nat

  /** Data only the distributor uses: in-flight tags, which of them are on, and the backlogs. */
  datatype Priv = Priv(tags: seq<nat>, mask: seq<bool>, backlog: seq<seq<nat>>)

  /** Where a call stands: at the loop test, with a word read, about to serve it, or waiting for a nested call. */
  datatype Pc = Top | Latched(data: Buf) | Ready(data: Buf) | Closing

  /** The main loop of a call, its closing loop, or the loop of a call without packets. */
  datatype Kind = Main | Final | Returns

  /** A call of `rte_distributor_process` in progress. */
  datatype Frame = Frame(kind: Kind, mbufs: seq<nat>, idx: nat, next: nat, wkr: nat, pc: Pc)

  /**
    The whole system. `retired` are the workers that returned their last packet.
    `sub`, `out` and `fin` are histories: packets submitted, handed to a worker,
    and finished by a worker.
  */
  datatype State = State(d: Priv, bufs: seq<Buf>, retired: seq<bool>, stack: seq<Frame>, sub: seq<nat>, out: seq<nat>,
    fin: seq<nat>)

  predicate Sized(s: State) {
    |s.d.tags| == |s.d.mask| == |s.d.backlog| == |s.bufs| == |s.retired|
  }

  // -------------------------------------------------------------------- finding a worker

  predicate InFlight(d: Priv, w: nat, t: nat) {
    w < |d.tags| && w < |d.mask| && d.mask[w] && d.tags[w] == t
  }

  /** The first worker at or after `w` that has a packet with tag `t`; the number of workers if there is none. */
  function WorkerFrom(d: Priv, t: nat, w: nat): (r: nat)
    requires w <= |d.tags|
    ensures w <= r <= |d.tags| && (r < |d.tags| ==> InFlight(d, r, t))
    ensures forall x :: w <= x < r ==> !InFlight(d, x, t)
    decreases |d.tags| - w
  {
    if w == |d.tags| || InFlight(d, w, t) then w else WorkerFrom(d, t, w + 1)
  }

  function Worker(d: Priv, t: nat): nat { WorkerFrom(d, t, 0) }

  // ------------------------------------------------------------------ steps of the workers

  /** `rte_distributor_request_pkt` waits for an unflagged word. */
  predicate CanRequest(s: State, w: nat) { Sized(s) && w < |s.bufs| && s.bufs[w].flag == NoBuf }

  /** `rte_distributor_return_pkt` writes at once. */
  predicate CanReturn(s: State, w: nat) { Sized(s) && w < |s.bufs| }

  /** The distributor has read a request of the worker and not yet answered it. */
  predicate Answering(s: State, w: nat) {
    s.stack != [] && TopOf(s).wkr == w && (TopOf(s).pc.Latched? || TopOf(s).pc.Ready?) && TopOf(s).pc.data.flag == Get
  }

  /**
    A worker that returned its last packet does nothing any more, and it does not return while a request is answered.
  */
  predicate Obeys(s: State, e: Event) {
    match e
    case Requests(w, _) => w < |s.retired| && !s.retired[w]
    case Returns_(w, _) => w < |s.retired| && !s.retired[w] && !Answering(s, w)
    case _ => true
  }

  function Finish(s: State, w: nat): seq<nat>
    requires w < |s.bufs|
  {
    if s.bufs[w].flag == NoBuf && s.bufs[w].ptr != 0 then s.fin + [s.bufs[w].ptr] else s.fin
  }

  /** The worker is done with its packet, passes `old` back and asks for another. */
  function Request(s: State, w: nat, old_: nat): State
    requires CanRequest(s, w)
  {
    s.(bufs := s.bufs[w := Buf(Get, old_)], fin := Finish(s, w))
  }

  /** The worker is done with its packet, passes `old` back and will not ask again. */
  function Return(s: State, w: nat, old_: nat): State
    requires CanReturn(s, w)
  {
    s.(bufs := s.bufs[w := Buf(Ret, old_)], retired := s.retired[w := true], fin := Finish(s, w))
  }

  // -------------------------------------------------------------- steps of the distributor

  /** A call from outside: the packets are non-null. */
  predicate MayCall(s: State, mbufs: seq<nat>) { Sized(s) && |s.bufs| > 0 && s.stack == [] && 0 !in mbufs }

  function Call(s: State, mbufs: seq<nat>): State
    requires MayCall(s, mbufs)
  {
    s.(stack := [Frame(if mbufs == [] then Returns else Main, mbufs, 0, 0, 0, Top)], sub := s.sub + mbufs)
  }

  predicate FrameSane(f: Frame, n: nat) {
    && f.idx <= |f.mbufs| && 0 !in f.mbufs
    && (f.kind != Main ==> f.mbufs == [] && f.next == 0)
    && f.wkr <= n && (f.kind == Main || f.pc != Top ==> f.wkr < n)
    && (f.kind == Main && f.pc.Latched? && f.next == 0 ==> f.idx < |f.mbufs|)
  }

  /** The distributor is inside a call. */
  predicate MayTick(s: State) {
    && Sized(s) && |s.bufs| > 0 && s.stack != []
    && (forall i :: 0 <= i < |s.stack| ==> FrameSane(s.stack[i], |s.bufs|))
    && (forall i :: 0 <= i < |s.stack| ==> (s.stack[i].pc == Closing <==> i < |s.stack| - 1))
  }

  function TopOf(s: State): Frame
    requires s.stack != []
  {
    s.stack[|s.stack| - 1]
  }

  function SetTop(s: State, f: Frame): State
    requires s.stack != []
  {
    s.(stack := s.stack[|s.stack| - 1 := f])
  }

  /** On to the next worker. */
  function Advance(f: Frame, n: nat): Frame {
    if f.kind == Main && f.wkr + 1 >= n then f.(wkr := 0, pc := Top) else f.(wkr := f.wkr + 1, pc := Top)
  }

  /** One step of the distributor. */
  function Tick(s: State, tag: Tag): State
    requires MayTick(s)
  {
    var f := TopOf(s);
    match f.pc
    case Top =>
      if f.kind == Main then
        if f.idx < |f.mbufs| || f.next != 0 then SetTop(s, f.(pc := Latched(s.bufs[f.wkr])))
        else SetTop(s, Frame(Final, [], 0, 0, 0, Top))
      else if f.wkr < |s.bufs| then SetTop(s, f.(pc := Latched(s.bufs[f.wkr])))
      else Leave(s)
    case Latched(data) =>
      if f.kind == Main && f.next == 0 then Fetch(s, data, tag) else SetTop(s, f.(pc := Ready(data)))
    case Ready(data) => Serve(s, data, tag)
    case Closing => s
  }

  /** Return from a call; a waiting outer call drops the backlog it had passed on. */
  function Leave(s: State): State
    requires MayTick(s)
  {
    var below := s.stack[..|s.stack| - 1];
    if below == [] then s.(stack := [])
    else
      var f := below[|below| - 1];
      s.(stack := below[|below| - 1 := Advance(f, |s.bufs|)], d := s.d.(backlog := s.d.backlog[f.wkr := []]))
  }

  /** Take the next packet: to the backlog of the worker that has its flow, back if that is full, or pending. */
  function Fetch(s: State, data: Buf, tag: Tag): State
    requires MayTick(s) && TopOf(s).idx < |TopOf(s).mbufs|
  {
    var f := TopOf(s);
    var p := f.mbufs[f.idx];
    var w := Worker(s.d, tag(p));
    if w >= |s.bufs| then SetTop(s, f.(idx := f.idx + 1, next := p, pc := Ready(data)))
    else if |s.d.backlog[w]| == BACKLOG_SIZE then SetTop(s, f.(pc := Ready(data)))
    else SetTop(s, f.(idx := f.idx + 1,
      pc := Ready(data))).(d := s.d.(backlog := s.d.backlog[w := s.d.backlog[w] + [p]]))
  }

  function Serve(s: State, data: Buf, tag: Tag): State
    requires MayTick(s) && TopOf(s).wkr < |s.bufs|
  {
    var f := TopOf(s);
    var w := f.wkr;
    if data.flag == Get then
      if s.d.backlog[w] != [] then GiveQueued(s)
      else if f.kind == Main && f.next != 0 then GiveNext(s, tag)
      else if f.kind == Returns then Release(s)
      else SetTop(s, Advance(f, |s.bufs|))
    else if data.flag == Ret && f.kind != Final then Shutdown(s)
    else SetTop(s, Advance(f, |s.bufs|))
  }

  /** Hand the worker the oldest packet of its backlog. */
  function GiveQueued(s: State): State
    requires MayTick(s) && TopOf(s).wkr < |s.bufs| && s.d.backlog[TopOf(s).wkr] != []
  {
    var f := TopOf(s);
    var q := s.d.backlog[f.wkr];
    SetTop(s, Advance(f, |s.bufs|)).(
    bufs := s.bufs[f.wkr := Buf(NoBuf, q[0])],
    d := s.d.(backlog := s.d.backlog[f.wkr := q[1..]]),
    out := s.out + [q[0]])
  }

  /** Hand the worker the pending packet; its flow is now this worker's. */
  function GiveNext(s: State, tag: Tag): State
    requires MayTick(s) && TopOf(s).wkr < |s.bufs|
  {
    var f := TopOf(s);
    SetTop(s, Advance(f.(next := 0), |s.bufs|)).(
    bufs := s.bufs[f.wkr := Buf(NoBuf, f.next)],
    d := s.d.(tags := s.d.tags[f.wkr := tag(f.next)], mask := s.d.mask[f.wkr := true]),
    out := s.out + [f.next])
  }

  /** Nothing for the worker: it keeps its request, and its flow is free. */
  function Release(s: State): State
    requires MayTick(s) && TopOf(s).wkr < |s.bufs|
  {
    var f := TopOf(s);
    SetTop(s, Advance(f, |s.bufs|)).(
    bufs := s.bufs[f.wkr := Buf(Get, 0)],
    d := Off(s.d, f.wkr))
  }

  function Off(d: Priv, w: nat): Priv
    requires w < |d.tags| && w < |d.mask|
  {
    d.(tags := d.tags[w := 0], mask := d.mask[w := false])
  }

  /** `handle_worker_shutdown`: the backlog is distributed again by a nested call. */
  function Shutdown(s: State): State
    requires MayTick(s) && TopOf(s).wkr < |s.bufs|
  {
    var f := TopOf(s);
    var s' := s.(bufs := s.bufs[f.wkr := Buf(NoBuf, 0)], d := Off(s.d, f.wkr));
    if s.d.backlog[f.wkr] == [] then SetTop(s', Advance(f, |s.bufs|))
    else
      var nested := Frame(Main, s.d.backlog[f.wkr], 0, 0, 0, Top);
      SetTop(s', f.(pc := Closing)).(stack := s.stack[|s.stack| - 1 := f.(pc := Closing)] + [nested])
  }

  // -------------------------------------------------------------------------- runs

  datatype Event = Requests(w: nat, old_: nat) | Returns_(w: nat, old_: nat) | Calls(mbufs: seq<nat>) | Ticks

  /** What the code can do, whatever the workers do. */
  ghost predicate CodeStep(s: State, e: Event, s': State, tag: Tag) {
    match e
    case Requests(w, o) => CanRequest(s, w) && s' == Request(s, w, o)
    case Returns_(w, o) => CanReturn(s, w) && s' == Return(s, w, o)
    case Calls(mbufs) => MayCall(s, mbufs) && s' == Call(s, mbufs)
    case Ticks => MayTick(s) && s' == Tick(s, tag)
  }

  ghost predicate Step(s: State, e: Event, s': State, tag: Tag) { CodeStep(s, e, s', tag) && Obeys(s, e) }

  /** `n` workers, nothing submitted. */
  function Init(n: nat): State {
    State(Priv(seq(n, _ => 0), seq(n, _ => false), seq(n, _ => [])), seq(n, _ => Buf(NoBuf, 0)), seq(n, _ => false),
      [], [], [], [])
  }

  /** Consecutive states are joined by the events. */
  ghost predicate Joined(run: seq<State>, events: seq<Event>, tag: Tag) {
    |run| == |events| + 1 && forall i :: 0 <= i < |events| ==> CodeStep(run[i], events[i], run[i + 1], tag)
  }

  /** All workers obey. */
  ghost predicate Obeyed(run: seq<State>, events: seq<Event>) {
    |run| > |events| && forall i :: 0 <= i < |events| ==> Obeys(run[i], events[i])
  }

  /** A run from the start in which all workers obey. */
  ghost predicate IsRun(run: seq<State>, events: seq<Event>, n: nat, tag: Tag) {
    Joined(run, events, tag) && Obeyed(run, events) && run[0] == Init(n)
  }
}
