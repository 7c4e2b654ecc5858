/**
  Why workers have to obey: two runs from the start, with one worker, in which one does not.
*/
module DistMisuse {
  import opened DistState

  /** A run of the code with one worker that ends in `s`. */
  ghost predicate Reaches(run: seq<State>, events: seq<Event>, s: State, tag: Tag) {
    Joined(run, events, tag) && run[0] == Init(1) && run[|run| - 1] == s
  }

  lemma Extend(run: seq<State>, events: seq<Event>, s: State, e: Event, s': State, tag: Tag) returns (run': seq<State>,
      events': seq<Event>)
    requires Reaches(run, events, s, tag) && CodeStep(s, e, s', tag)
    ensures Reaches(run', events', s', tag) && events' == events + [e] && run' == run + [s']
    ensures Obeyed(run, events) && Obeys(s, e) ==> Obeyed(run', events')
  {
    run', events' := run + [s'], events + [e];
    forall i | 0 <= i < |events'| ensures CodeStep(run'[i], events'[i], run'[i + 1], tag) {
      if i < |events| { assert CodeStep(run[i], events[i], run[i + 1], tag); }
    }
  }

  /** A state with one worker: its flow and backlog, its word, whether it returned, the calls, and the histories. */
  datatype View = View(tag: nat, on: bool, backlog: seq<nat>, word: Buf, retired: bool, sub: seq<nat>, out: seq<nat>,
    fin: seq<nat>)

  function At(v: View, stack: seq<Frame>): State {
    State(Priv([v.tag], [v.on], [v.backlog]), [v.word], [v.retired], stack, v.sub, v.out, v.fin)
  }

  /** The innermost call, perhaps inside one that waits for the backlog of the worker to be distributed again. */
  function In(nested: bool, f: Frame): seq<Frame> {
    if nested then [Frame(Returns, [], 0, 0, 0, Closing), f] else [f]
  }

  function Loop(mbufs: seq<nat>, idx: nat, next: nat, pc: Pc): Frame { Frame(Main, mbufs, idx, next, 0, pc) }

  function End(kind: Kind, wkr: nat, pc: Pc): Frame { Frame(kind, [], 0, 0, wkr, pc) }

  // ---------------------------------------------------------------- single steps of a call

  lemma ReadStep(v: View, nested: bool, mbufs: seq<nat>, idx: nat, next: nat, tag: Tag)
    requires idx <= |mbufs| && 0 !in mbufs && (idx < |mbufs| || next != 0)
    ensures CodeStep(At(v, In(nested, Loop(mbufs, idx, next, Top))), Ticks,
      At(v, In(nested, Loop(mbufs, idx, next, Latched(v.word)))), tag)
  {
  }

  /** No worker has the flow of the packet: it is the next one to hand out. */
  lemma FetchStep(v: View, nested: bool, p: nat, b: Buf, tag: Tag)
    requires !v.on && p != 0
    ensures CodeStep(At(v, In(nested, Loop([p], 0, 0, Latched(b)))), Ticks,
      At(v, In(nested, Loop([p], 1, p, Ready(b)))), tag)
  {
  }

  /** The worker has the flow of the packet: it goes to its backlog. */
  lemma QueueStep(v: View, p: nat, b: Buf, tag: Tag)
    requires v.on && v.tag == tag(p) && v.backlog == [] && p != 0
    ensures CodeStep(At(v, In(false, Loop([p], 0, 0, Latched(b)))), Ticks,
      At(v.(backlog := [p]), In(false, Loop([p], 1, 0, Ready(b)))), tag)
  {
    assert Worker(Priv([v.tag], [v.on], [v.backlog]), tag(p)) == 0;
    assert v.backlog + [p] == [p] && [v.backlog][0 := [p]] == [[p]];
  }

  lemma PendingStep(v: View, nested: bool, p: nat, b: Buf, tag: Tag)
    requires p != 0
    ensures CodeStep(At(v, In(nested, Loop([p], 1, p, Latched(b)))), Ticks,
      At(v, In(nested, Loop([p], 1, p, Ready(b)))), tag)
  {
  }

  lemma GiveNextStep(v: View, nested: bool, p: nat, old_: nat, tag: Tag)
    requires v.backlog == [] && p != 0
    ensures CodeStep(At(v, In(nested, Loop([p], 1, p, Ready(Buf(Get, old_))))), Ticks,
                     At(v.(tag := tag(p), on := true, word := Buf(NoBuf, p), out := v.out + [p]),
                       In(nested, Loop([p], 1, 0, Top))), tag)
  {
  }

  lemma GiveQueuedStep(v: View, nested: bool, p: nat, old_: nat, tag: Tag)
    requires v.backlog == [p] && p != 0
    ensures CodeStep(At(v, In(nested, Loop([p], 1, p, Ready(Buf(Get, old_))))), Ticks,
                     At(v.(backlog := [], word := Buf(NoBuf, p), out := v.out + [p]),
                       In(nested, Loop([p], 1, p, Top))), tag)
  {
    assert v.backlog[1..] == [] && [v.backlog][0 := []] == [[]];
  }

  lemma SkipStep(v: View, p: nat, q: nat, tag: Tag)
    requires p != 0
    ensures CodeStep(At(v, In(false, Loop([p], 1, 0, Ready(Buf(NoBuf, q))))), Ticks,
      At(v, In(false, Loop([p], 1, 0, Top))), tag)
  {
  }

  lemma ToFinalStep(v: View, p: nat, tag: Tag)
    requires p != 0
    ensures CodeStep(At(v, In(false, Loop([p], 1, 0, Top))), Ticks, At(v, In(false, End(Final, 0, Top))), tag)
  {
  }

  lemma EndReadStep(v: View, kind: Kind, tag: Tag)
    requires kind != Main
    ensures CodeStep(At(v, In(false, End(kind, 0, Top))), Ticks, At(v, In(false, End(kind, 0, Latched(v.word)))), tag)
    ensures CodeStep(At(v, In(false, End(kind, 0, Latched(v.word)))), Ticks,
      At(v, In(false, End(kind, 0, Ready(v.word)))), tag)
  {
  }

  lemma EndSkipStep(v: View, p: nat, tag: Tag)
    ensures CodeStep(At(v, In(false, End(Final, 0, Ready(Buf(NoBuf, p))))), Ticks,
      At(v, In(false, End(Final, 1, Top))), tag)
    ensures CodeStep(At(v, In(false, End(Final, 1, Top))), Ticks, At(v, []), tag)
  {
  }

  lemma ShutdownStep(v: View, p: nat, old_: nat, tag: Tag)
    requires v.backlog == [p] && p != 0
    ensures CodeStep(At(v, In(false, End(Returns, 0, Ready(Buf(Ret, old_))))), Ticks,
                     At(v.(tag := 0, on := false, word := Buf(NoBuf, 0)), In(true, Loop([p], 0, 0, Top))), tag)
  {
  }

  // ------------------------------------------------------------------------ whole runs

  /** The first state. */
  const Fresh: View := View(0, false, [], Buf(NoBuf, 0), false, [], [], [])

  lemma Start(tag: Tag) returns (run: seq<State>, events: seq<Event>)
    ensures Reaches(run, events, At(Fresh, []), tag) && Obeyed(run, events)
  {
    run, events := [Init(1)], [];
    assert Init(1) == At(Fresh, []);
  }

  /** The worker asks, and a call with packet 1 reads its request. */
  lemma AskAndRead(tag: Tag) returns (run: seq<State>, events: seq<Event>)
    ensures Reaches(run, events, At(Fresh.(word := Buf(Get, 0), sub := [1]),
      In(false, Loop([1], 0, 0, Latched(Buf(Get, 0))))), tag)
    ensures Obeyed(run, events)
  {
    hide Reaches, Obeyed;
    var v := Fresh.(word := Buf(Get, 0));
    var w := v.(sub := [1]);
    run, events := Start(tag);
    run, events := Extend(run, events, At(Fresh, []), Requests(0, 0), At(v, []), tag);
    run, events := Extend(run, events, At(v, []), Calls([1]), At(w, In(false, Loop([1], 0, 0, Top))), tag);
    ReadStep(w, false, [1], 0, 0, tag);
    run, events := Extend(run, events, At(w, In(false, Loop([1], 0, 0, Top))), Ticks,
      At(w, In(false, Loop([1], 0, 0, Latched(v.word)))), tag);
  }

  /**
    A worker that returns while its request is being answered: the return is overwritten, and the packet is with
    a worker that will not finish it.
  */
  lemma ReturnIsLost(tag: Tag) returns (run: seq<State>, events: seq<Event>, k: nat)
    ensures Joined(run, events, tag) && run[0] == Init(1)
    ensures k < |events| && Obeyed(run[..k + 1], events[..k]) && events[k] == Returns_(0, 0) && Answering(run[k], 0)
    ensures var s := run[|run| - 1]; |s.bufs| == |s.retired| == 1 && s.bufs[0] == Buf(NoBuf, 1) && s.retired[0]
  {
    hide Obeyed, Tick;
    var g := Buf(Get, 0);
    var v := Fresh.(word := g, sub := [1]);
    var w := v.(word := Buf(Ret, 0), retired := true);
    var s0, s1 := At(v, In(false, Loop([1], 0, 0, Latched(g)))), At(w, In(false, Loop([1], 0, 0, Latched(g))));
    var s2 := At(w, In(false, Loop([1], 1, 1, Ready(g))));
    var s3 := At(w.(tag := tag(1), on := true, word := Buf(NoBuf, 1), out := [1]), In(false, Loop([1], 1, 0, Top)));
    var run0, events0 := AskAndRead(tag);
    k := |events0|;
    run, events := Extend(run0, events0, s0, Returns_(0, 0), s1, tag);
    FetchStep(w, false, 1, g, tag);
    run, events := Extend(run, events, s1, Ticks, s2, tag);
    GiveNextStep(w, false, 1, 0, tag);
    run, events := Extend(run, events, s2, Ticks, s3, tag);
    assert run[..k + 1] == run0 && events[..k] == events0;
  }

  /** A call with nothing left to place looks at the worker once more and returns. */
  lemma Conclude(run0: seq<State>, events0: seq<Event>, v: View, p: nat, tag: Tag) returns (run: seq<State>,
      events: seq<Event>)
    requires Reaches(run0, events0, At(v, In(false, Loop([p], 1, 0, Top))), tag) && Obeyed(run0, events0) &&
      v.word.flag == NoBuf && p != 0
    ensures Reaches(run, events, At(v, []), tag) && Obeyed(run, events)
  {
    hide Reaches, Obeyed, CodeStep, At, In;
    var b := v.word;
    ToFinalStep(v, p, tag);
    run, events := Extend(run0, events0, At(v, In(false, Loop([p], 1, 0, Top))), Ticks,
      At(v, In(false, End(Final, 0, Top))), tag);
    EndReadStep(v, Final, tag);
    run, events := Extend(run, events, At(v, In(false, End(Final, 0, Top))), Ticks,
      At(v, In(false, End(Final, 0, Latched(b)))), tag);
    run, events := Extend(run, events, At(v, In(false, End(Final, 0, Latched(b)))), Ticks,
      At(v, In(false, End(Final, 0, Ready(b)))), tag);
    EndSkipStep(v, b.ptr, tag);
    run, events := Extend(run, events, At(v, In(false, End(Final, 0, Ready(b)))), Ticks,
      At(v, In(false, End(Final, 1, Top))), tag);
    run, events := Extend(run, events, At(v, In(false, End(Final, 1, Top))), Ticks, At(v, []), tag);
  }

  /** Packet 1 is with the worker. */
  function Holding(tag: Tag): View { View(tag(1), true, [], Buf(NoBuf, 1), false, [1], [1], []) }

  /** The call hands out packet 1 and returns. */
  lemma HandOut(tag: Tag) returns (run: seq<State>, events: seq<Event>)
    ensures Reaches(run, events, At(Holding(tag), []), tag) && Obeyed(run, events)
  {
    hide Reaches, Obeyed, CodeStep, At, In;
    var g := Buf(Get, 0);
    var v := Fresh.(word := g, sub := [1]);
    run, events := AskAndRead(tag);
    FetchStep(v, false, 1, g, tag);
    run, events := Extend(run, events, At(v, In(false, Loop([1], 0, 0, Latched(g)))), Ticks,
      At(v, In(false, Loop([1], 1, 1, Ready(g)))), tag);
    GiveNextStep(v, false, 1, 0, tag);
    assert v.(tag := tag(1), on := true, word := Buf(NoBuf, 1), out := v.out + [1]) == Holding(tag);
    run, events := Extend(run, events, At(v, In(false, Loop([1], 1, 1, Ready(g)))), Ticks,
      At(Holding(tag), In(false, Loop([1], 1, 0, Top))), tag);
    run, events := Conclude(run, events, Holding(tag), 1, tag);
  }

  /** Packet 2 of the same flow waits behind it. */
  function Queued(tag: Tag): View { Holding(tag).(backlog := [2], sub := [1, 2]) }

  lemma CallStep(v: View, p: nat, tag: Tag)
    requires p != 0
    ensures CodeStep(At(v, []), Calls([p]), At(v.(sub := v.sub + [p]), In(false, Loop([p], 0, 0, Top))), tag)
    ensures CodeStep(At(v, []), Calls([]), At(v, In(false, End(Returns, 0, Top))), tag)
  {
    assert v.sub + [] == v.sub;
  }

  lemma Queue(tag: Tag) returns (run: seq<State>, events: seq<Event>)
    requires tag(1) == tag(2)
    ensures Reaches(run, events, At(Queued(tag), []), tag) && Obeyed(run, events)
  {
    hide Reaches, Obeyed, CodeStep, At, In;
    var v, b := Holding(tag), Buf(NoBuf, 1);
    var w := v.(sub := v.sub + [2]);
    assert w.(backlog := [2]) == Queued(tag);
    run, events := HandOut(tag);
    CallStep(v, 2, tag);
    run, events := Extend(run, events, At(v, []), Calls([2]), At(w, In(false, Loop([2], 0, 0, Top))), tag);
    ReadStep(w, false, [2], 0, 0, tag);
    run, events := Extend(run, events, At(w, In(false, Loop([2], 0, 0, Top))), Ticks,
      At(w, In(false, Loop([2], 0, 0, Latched(b)))), tag);
    QueueStep(w, 2, b, tag);
    run, events := Extend(run, events, At(w, In(false, Loop([2], 0, 0, Latched(b)))), Ticks,
      At(Queued(tag), In(false, Loop([2], 1, 0, Ready(b)))), tag);
    SkipStep(Queued(tag), 2, 1, tag);
    run, events := Extend(run, events, At(Queued(tag), In(false, Loop([2], 1, 0, Ready(b)))), Ticks,
      At(Queued(tag), In(false, Loop([2], 1, 0, Top))), tag);
    run, events := Conclude(run, events, Queued(tag), 2, tag);
  }

  /** The worker has returned packet 1 as its last, and packet 2 is to be distributed again. */
  const Left: View := View(0, false, [2], Buf(NoBuf, 0), true, [1, 2], [1], [1])

  lemma ReturnStep(v: View, tag: Tag)
    requires v.word == Buf(NoBuf, 1) && !v.retired
    ensures CodeStep(At(v, []), Returns_(0, 1), At(v.(word := Buf(Ret, 1), retired := true, fin := v.fin + [1]), []),
      tag)
    ensures Obeys(At(v, []), Returns_(0, 1))
  {
  }

  lemma ShutDown(tag: Tag) returns (run: seq<State>, events: seq<Event>)
    requires tag(1) == tag(2)
    ensures Reaches(run, events, At(Left, In(true, Loop([2], 0, 0, Top))), tag) && Obeyed(run, events)
  {
    hide Reaches, Obeyed, CodeStep, At, In;
    var v, r := Queued(tag), Buf(Ret, 1);
    var w := v.(word := r, retired := true, fin := v.fin + [1]);
    assert w.(tag := 0, on := false, word := Buf(NoBuf, 0)) == Left;
    run, events := Queue(tag);
    ReturnStep(v, tag);
    run, events := Extend(run, events, At(v, []), Returns_(0, 1), At(w, []), tag);
    CallStep(w, 1, tag);
    run, events := Extend(run, events, At(w, []), Calls([]), At(w, In(false, End(Returns, 0, Top))), tag);
    EndReadStep(w, Returns, tag);
    run, events := Extend(run, events, At(w, In(false, End(Returns, 0, Top))), Ticks,
      At(w, In(false, End(Returns, 0, Latched(r)))), tag);
    run, events := Extend(run, events, At(w, In(false, End(Returns, 0, Latched(r)))), Ticks,
      At(w, In(false, End(Returns, 0, Ready(r)))), tag);
    ShutdownStep(w, 2, 1, tag);
    run, events := Extend(run, events, At(w, In(false, End(Returns, 0, Ready(r)))), Ticks,
      At(Left, In(true, Loop([2], 0, 0, Top))), tag);
  }

  lemma RequestStep(v: View, stack: seq<Frame>, p: nat, tag: Tag)
    requires v.word.flag == NoBuf
    ensures CodeStep(At(v, stack), Requests(0, p),
      At(v.(word := Buf(Get, p), fin := if v.word.ptr != 0 then v.fin + [v.word.ptr] else v.fin), stack), tag)
    ensures v.retired ==> !Obeys(At(v, stack), Requests(0, p))
  {
  }

  /** The worker that left asks again, and gets packet 2 from its old backlog while the packet is still pending. */
  lemma GetsOldBacklog(run0: seq<State>, events0: seq<Event>, tag: Tag) returns (run: seq<State>, events: seq<Event>)
    requires Reaches(run0, events0, At(Left.(word := Buf(Get, 0)), In(true, Loop([2], 0, 0, Top))), tag)
    ensures Reaches(run, events, At(Left.(backlog := [], word := Buf(NoBuf, 2), out := [1, 2]),
      In(true, Loop([2], 1, 2, Top))), tag)
    ensures run0 <= run && events0 <= events
  {
    hide CodeStep, At, In;
    var g := Buf(Get, 0);
    var v := Left.(word := g);
    ReadStep(v, true, [2], 0, 0, tag);
    run, events := Extend(run0, events0, At(v, In(true, Loop([2], 0, 0, Top))), Ticks,
      At(v, In(true, Loop([2], 0, 0, Latched(g)))), tag);
    FetchStep(v, true, 2, g, tag);
    run, events := Extend(run, events, At(v, In(true, Loop([2], 0, 0, Latched(g)))), Ticks,
      At(v, In(true, Loop([2], 1, 2, Ready(g)))), tag);
    GiveQueuedStep(v, true, 2, 0, tag);
    assert v.(backlog := [], word := Buf(NoBuf, 2), out := v.out + [2]) ==
      Left.(backlog := [], word := Buf(NoBuf, 2), out := [1, 2]);
    run, events := Extend(run, events, At(v, In(true, Loop([2], 1, 2, Ready(g)))), Ticks,
                          At(Left.(backlog := [], word := Buf(NoBuf, 2), out := [1, 2]),
                            In(true, Loop([2], 1, 2, Top))), tag);
  }

  /** The pending packet 2 is handed out once more. */
  lemma GetsPending(run0: seq<State>, events0: seq<Event>, v: View, tag: Tag) returns (run: seq<State>,
      events: seq<Event>)
    requires Reaches(run0, events0, At(v, In(true, Loop([2], 1, 2, Top))), tag) && v.word == Buf(Get, 2) &&
      v.backlog == []
    ensures Reaches(run, events, At(v.(tag := tag(2), on := true, word := Buf(NoBuf, 2), out := v.out + [2]),
      In(true, Loop([2], 1, 0, Top))), tag)
    ensures run0 <= run && events0 <= events
  {
    hide CodeStep, At, In;
    ReadStep(v, true, [2], 1, 2, tag);
    run, events := Extend(run0, events0, At(v, In(true, Loop([2], 1, 2, Top))), Ticks,
      At(v, In(true, Loop([2], 1, 2, Latched(v.word)))), tag);
    PendingStep(v, true, 2, v.word, tag);
    run, events := Extend(run, events, At(v, In(true, Loop([2], 1, 2, Latched(v.word)))), Ticks,
      At(v, In(true, Loop([2], 1, 2, Ready(v.word)))), tag);
    GiveNextStep(v, true, 2, 2, tag);
    run, events := Extend(run, events, At(v, In(true, Loop([2], 1, 2, Ready(v.word)))), Ticks,
                          At(v.(tag := tag(2), on := true, word := Buf(NoBuf, 2), out := v.out + [2]),
                            In(true, Loop([2], 1, 0, Top))), tag);
  }

  /**
    A worker that asks again after it returned its last packet, while its old backlog is being distributed again: up to
    there every worker obeyed, and packet 2, which was submitted once, is handed out twice.
  */
  lemma AskingAgainDuplicates(tag: Tag) returns (run: seq<State>, events: seq<Event>, k: nat)
    requires tag(1) == tag(2)
    ensures Joined(run, events, tag) && run[0] == Init(1)
    ensures k < |events| && Obeyed(run[..k + 1], events[..k]) && events[k] == Requests(0, 0) &&
      !Obeys(run[k], events[k])
    ensures var s := run[|run| - 1]; s.sub == [1, 2] && s.out == [1, 2, 2]
  {
    hide Obeyed, CodeStep, In;
    var run0, events0 := ShutDown(tag);
    k := |events0|;
    var stack := In(true, Loop([2], 0, 0, Top));
    RequestStep(Left, stack, 0, tag);
    run, events := Extend(run0, events0, At(Left, stack), Requests(0, 0), At(Left.(word := Buf(Get, 0)), stack), tag);
    assert run[..k + 1] == run0 && events[..k] == events0 && events[k] == Requests(0, 0) && run[k] == At(Left, stack);
    ghost var run1, events1 := run, events;
    run, events := GetsOldBacklog(run, events, tag);
    var v := Left.(backlog := [], word := Buf(NoBuf, 2), out := [1, 2]);
    var w := v.(word := Buf(Get, 2), fin := [1, 2]);
    RequestStep(v, In(true, Loop([2], 1, 2, Top)), 2, tag);
    ghost var run2, events2 := run, events;
    run, events := Extend(run, events, At(v, In(true, Loop([2], 1, 2, Top))), Requests(0, 2),
      At(w, In(true, Loop([2], 1, 2, Top))), tag);
    ghost var run3, events3 := run, events;
    run, events := GetsPending(run, events, w, tag);
    assert run1 <= run2 <= run3 <= run && events1 <= events2 <= events3 <= events;
    assert run[..k + 1] == run1[..k + 1] && events[..k] == events1[..k];
  }
}
