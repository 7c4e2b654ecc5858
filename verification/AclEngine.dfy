/**
  The search engine itself: `acl_start_next_trie`, `acl_match_check` and the main
  loop of the classify functions.
*/
module AclEngine {
  import opened AclTrie
  import opened AclWord
  import opened AclTable
  import opened AclRun
  import opened AclRunSteps
  import opened AclOrder

  const IDLE_SIZE: nat := 256

  /** What an idle slot reads: zeros, as long as its position is in the idle array. */
  function IdleInput(pos: nat): seq<byte>
    requires pos < IDLE_SIZE
  {
    [0, 0, 0, 0]
  }

  /** Only a slot in use is ever at a match. */
  lemma BusyAtMatch(j: Job, trace: Traces, answer: Answers, v: View, k: nat)
    requires Inv(j, trace, answer, v) && k < j.n && !v.slots[k].Vacant? && v.slots[k].word.Type() >= MATCH
    ensures v.slots[k].Busy?
  {
    IdleRuns(j, trace, answer);
  }

  lemma IdleRuns(j: Job, trace: Traces, answer: Answers)
    requires JobOk(j, trace, answer)
    ensures Safe(j.table, Idle, [0, 0, 0, 0]) && Run(j.table, Idle, [0, 0, 0, 0]) == Idle
    ensures Idle.Type() < MATCH
  {
    WordParts(0, SINGLE, DFA_SIZE);
    ZeroRun(j.table, [0, 0, 0, 0]);
  }

  lemma {:induction false} ZeroRun(table: seq<Word>, s: seq<byte>)
    requires |table| > DFA_SIZE && table[DFA_SIZE] == Idle && forall i :: 0 <= i < |s| ==> s[i] == 0
    ensures Safe(table, Idle, s) && Run(table, Idle, s) == Idle
    decreases |s|
  {
    if s != [] {
      IdleTarget();
      ZeroRun(table, s[1..]);
    }
  }

  // ------------------------------------------------------------------ counting and measures

  /** Number of traversals in progress. */
  ghost function BusyCount(slots: seq<Slot>): nat {
    if slots == [] then 0 else BusyCount(slots[..|slots| - 1]) + if slots[|slots| - 1].Busy? then 1 else 0
  }

  function Weight(s: Slot): nat { if s.Busy? && s.pos <= MAX_FIELDS then MAX_FIELDS - s.pos else 0 }

  /** Data indexes that the traversals in progress may still consume. */
  ghost function Work(slots: seq<Slot>): nat {
    if slots == [] then 0 else Work(slots[..|slots| - 1]) + Weight(slots[|slots| - 1])
  }

  lemma {:induction false} BusyUpdate(slots: seq<Slot>, k: nat, s: Slot)
    requires k < |slots|
    ensures BusyCount(slots[k := s]) ==
      BusyCount(slots) + (if s.Busy? then 1 else 0) - (if slots[k].Busy? then 1 else 0)
  {
    var n := |slots| - 1;
    if k == n {
      assert slots[k := s][..n] == slots[..n];
    } else {
      assert slots[k := s][..n] == slots[..n][k := s];
      BusyUpdate(slots[..n], k, s);
    }
  }

  lemma {:induction false} NoBusy(slots: seq<Slot>)
    ensures BusyCount(slots) == 0 <==> forall k :: 0 <= k < |slots| ==> !slots[k].Busy?
  {
    if slots != [] {
      NoBusy(slots[..|slots| - 1]);
      assert forall k :: 0 <= k < |slots| - 1 ==> slots[..|slots| - 1][k] == slots[k];
    }
  }

  lemma {:induction false} AllVacant(slots: seq<Slot>)
    requires forall k :: 0 <= k < |slots| ==> slots[k].Vacant?
    ensures BusyCount(slots) == 0
  {
    NoBusy(slots);
  }

  ghost predicate SlotMoves(a: Slot, b: Slot) {
    && (a.Busy? <==> b.Busy?)
    && (a.Busy? ==> b.pos == a.pos + 1 <= MAX_FIELDS)
  }

  lemma {:induction false} MovesWork(a: seq<Slot>, b: seq<Slot>)
    requires |a| == |b| && forall k :: 0 <= k < |a| ==> SlotMoves(a[k], b[k])
    ensures BusyCount(a) == BusyCount(b)
    ensures Work(b) + BusyCount(b) == Work(a)
  {
    if a != [] {
      var n := |a| - 1;
      assert forall k :: 0 <= k < n ==> SlotMoves(a[..n][k], b[..n][k]);
      MovesWork(a[..n], b[..n]);
      assert SlotMoves(a[n], b[n]);
    }
  }

  // ---------------------------------------------------------------------------- the engine

  class Engine {
    const j: Job
    ghost const trace: Traces
    ghost const answer: Answers

    var np: nat
    var tr: nat
    var started: nat
    var last: nat
    var cmplts: seq<Completion>
    var slots: seq<Slot>
    var results: seq<seq<nat>>
    ghost var done: seq<set<nat>>
    ghost var orders: seq<seq<nat>>

    ghost function V(): View
      reads this
    {
      View(np, tr, last, cmplts, slots, results, done)
    }

    ghost predicate Valid()
      reads this
    {
      Inv(j, trace, answer, V()) && |slots| == j.n && started == BusyCount(slots) && OrdersOk(j, answer, V(), orders)
    }

    /** Traversals not yet finished. */
    ghost function Left(): int
      reads this
    {
      (|j.packets| - np) * |j.tries| - tr + started
    }

    /** `acl_set_flow` and the clearing of the completion records. */
    constructor (j: Job, results: seq<seq<nat>>, ghost trace: Traces, ghost answer: Answers)
      requires JobOk(j, trace, answer) && |results| == |j.packets| && forall p :: 0 <= p < |results| ==>
        |results[p]| == j.categories
      ensures this.j == j && this.trace == trace && this.answer == answer
      ensures Valid() && forall k :: 0 <= k < j.n ==> slots[k].Vacant?
    {
      this.j, this.trace, this.answer := j, trace, answer;
      np, tr, started, last := 0, 0, 0, 0;
      cmplts := seq(j.n, _ => Completion(0, Zeros(), 0));
      slots := seq(j.n, _ => Vacant);
      this.results := results;
      done := seq(|j.packets|, _ => {});
      orders := seq(|j.packets|, _ => []);
      new;
      AllVacant(slots);
      FirstState(j, trace, answer, V());
    }

    static function Zeros(): (r: seq<int>)
      ensures |r| == MAX_CATEGORIES
    {
      seq(MAX_CATEGORIES, _ => 0)
    }

    static lemma FirstState(j: Job, trace: Traces, answer: Answers, v: View)
      requires JobOk(j, trace, answer) && v.np == v.tr == v.last == 0
      requires |v.cmplts| == |v.slots| == j.n && |v.results| == |v.done| == |j.packets|
      requires forall p :: 0 <= p < |v.results| ==> |v.results[p]| == j.categories
      requires forall m :: 0 <= m < j.n ==> v.cmplts[m].count == 0 && |v.cmplts[m].priority| == MAX_CATEGORIES
      requires forall k :: 0 <= k < j.n ==> v.slots[k].Vacant?
      requires forall p :: 0 <= p < |v.done| ==> v.done[p] == {}
      ensures Inv(j, trace, answer, v)
    {
    }

    /** `alloc_completion`. */
    method AllocCompletion(hole: nat) returns (m: nat)
      requires Valid() && tr == 0 && hole < j.n && !slots[hole].Busy?
      ensures m < j.n && cmplts[m].count == 0
    {
      hide Inv;
      InvShape(j, trace, answer, V());
      FreeCompletion(j, trace, answer, V(), hole);
      m := 0;
      while cmplts[m].count != 0
        invariant m < j.n && forall i :: 0 <= i < m ==> cmplts[i].count != 0
        decreases j.n - m
      {
        m := m + 1;
      }
    }

    /** `acl_start_next_trie`: put the next trie, or nothing, into a slot. */
    method StartNext(k: nat)
      requires Valid() && k < j.n && slots[k].Vacant?
      modifies this
      ensures Valid() && !slots[k].Vacant? && slots == old(slots)[k := slots[k]]
      ensures Left() == old(Left())
    {
      hide Inv, OrdersOk;
      ghost var v := V();
      InvShape(j, trace, answer, v);
      if np < |j.packets| {
        var m := last;
        if tr == 0 {
          m := AllocCompletion(k);
        }
        FirstWord(j, trace, answer, v);
        var w := j.table[j.packets[np][j.tries[tr].dataIndex[0]] + j.tries[tr].root];
        StartKeeps(j, trace, answer, v, k, m, w);
        StartOrders(j, trace, answer, v, k, m, w, orders);
        BusyUpdate(slots, k, Busy(np, tr, 1, m, w));
        Begin(k, m, w);
        assert V() == StartView(j, v, k, m, w);
      } else {
        IdleKeeps(j, trace, answer, v, k);
        BusyUpdate(slots, k, Free(0, Idle));
        SameOrders(j, answer, v, v.(slots := v.slots[k := Free(0, Idle)]), orders);
        slots := slots[k := Free(0, Idle)];
      }
    }

    method Begin(k: nat, m: nat, w: Word)
      requires k < |slots| && m < |cmplts| && np < |j.packets| && |j.tries| >= 1 && tr < |j.tries|
      modifies this
      ensures V() == StartView(j, old(V()), k, m, w) && orders == old(orders)
      ensures started == old(started) + 1 && Left() == old(Left())
    {
      if tr == 0 {
        cmplts := cmplts[m := Completion(np, cmplts[m].priority, |j.tries|)];
      }
      last := m;
      slots := slots[k := Busy(np, tr, 1, m, w)];
      tr := tr + 1;
      if tr >= |j.tries| {
        tr, np := 0, np + 1;
      }
      started := started + 1;
    }

    /** First part of `acl_match_check`: take the results of a finished traversal. */
    method Finish(k: nat)
      requires Valid() && k < j.n && slots[k].Busy? && slots[k].word.Type() >= MATCH
      modifies this
      ensures Valid() && slots == old(slots)[k := Vacant] && Left() == old(Left()) - 1
    {
      hide Inv, OrdersOk;
      ghost var v := V();
      var s := slots[k];
      AtMatch(j, trace, answer, v, k);
      var c := cmplts[s.cmplt];
      var row, priority := AclRun.Resolve(results[s.packet], c.priority, j.matches[s.word.Addr()], c.count ==
        |j.tries|, j.categories);
      ResolveKeepsBest(answer, s.packet, done[s.packet], s.trie, results[s.packet], c.priority, row, priority,
        j.categories);
      FinishKeeps(j, trace, answer, v, k, row, priority);
      FinishOrders(j, trace, answer, v, k, row, priority, orders);
      BusyUpdate(slots, k, Vacant);
      Record(k, row, priority);
    }

    method Record(k: nat, row: seq<nat>, priority: seq<int>)
      requires k < |slots| && slots[k].Busy? && slots[k].packet < |done| && slots[k].packet < |results|
      requires slots[k].cmplt < |cmplts| && cmplts[slots[k].cmplt].count > 0 && started == BusyCount(slots) &&
        slots[k].packet < |orders|
      modifies this
      ensures V() == FinishView(old(V()), k, row, priority)
      ensures orders == old(orders)[old(slots)[k].packet := old(orders)[old(slots)[k].packet] + [old(slots)[k].trie]]
      ensures started == old(started) - 1
    {
      var s := slots[k];
      NoBusy(slots);
      started := started - 1;
      results := results[s.packet := row];
      cmplts := cmplts[s.cmplt := Completion(s.packet, priority, cmplts[s.cmplt].count - 1)];
      done := done[s.packet := done[s.packet] + {s.trie}];
      orders := orders[s.packet := orders[s.packet] + [s.trie]];
      slots := slots[k := Vacant];
    }

    /** `acl_match_check`. */
    method MatchCheck(k: nat)
      requires Valid() && k < j.n && !slots[k].Vacant?
      modifies this
      ensures Valid() && !slots[k].Vacant? && slots == old(slots)[k := slots[k]]
      ensures if old(slots)[k].word.Type() >= MATCH then Left() == old(Left()) - 1
              else slots == old(slots) && Left() == old(Left())
    {
      hide Inv, OrdersOk;
      if slots[k].word.Type() >= MATCH {
        BusyAtMatch(j, trace, answer, V(), k);
        Finish(k);
        StartNext(k);
      }
    }

    /** Whether some slot is at a match. */
    method AnyMatch() returns (any: bool)
      requires forall k :: 0 <= k < |slots| ==> !slots[k].Vacant?
      ensures any <==> !Quiet(slots)
    {
      any := false;
      for k := 0 to |slots|
        invariant any <==> exists i :: 0 <= i < k && slots[i].word.Type() >= MATCH
      {
        if slots[k].word.Type() >= MATCH {
          any := true;
        }
      }
    }

    /** The inner loop: check all slots until none is at a match. */
    method Settle()
      requires Valid() && forall k :: 0 <= k < j.n ==> !slots[k].Vacant?
      modifies this
      ensures Valid() && Quiet(slots)
      ensures (slots == old(slots) && Left() == old(Left())) || Left() < old(Left())
    {
      hide Inv;
      var any := AnyMatch();
      while any
        invariant Valid() && (forall k :: 0 <= k < j.n ==> !slots[k].Vacant?) && (any <==> !Quiet(slots))
        invariant (slots == old(slots) && Left() == old(Left())) || Left() < old(Left())
        decreases LeftBound(j, V(), started), any
      {
        LeftIsBounded(j, trace, answer, V(), started);
        CheckAll();
        LeftIsBounded(j, trace, answer, V(), started);
        any := AnyMatch();
      }
    }

    method CheckAll()
      requires Valid() && (forall k :: 0 <= k < j.n ==> !slots[k].Vacant?) && !Quiet(slots)
      modifies this
      ensures Valid() && forall k :: 0 <= k < j.n ==> !slots[k].Vacant?
      ensures Left() < old(Left())
    {
      hide Inv;
      ghost var was, hit := slots, false;
      for n := 0 to j.n
        invariant Valid() && forall k :: 0 <= k < j.n ==> !slots[k].Vacant?
        invariant forall k :: n <= k < j.n ==> slots[k] == was[k]
        invariant !hit ==> forall k :: 0 <= k < n ==> was[k].word.Type() < MATCH
        invariant if hit then Left() < old(Left()) else Left() == old(Left())
      {
        hit := hit || slots[n].word.Type() >= MATCH;
        MatchCheck(n);
      }
    }

    /** Four bytes of input for every slot. */
    method Round()
      requires Valid() && Quiet(slots) && started > 0
      modifies this
      ensures Valid() && started == old(started) && np == old(np) && tr == old(tr)
      ensures Work(slots) < Work(old(slots)) && forall k :: 0 <= k < j.n ==> !slots[k].Vacant?
    {
      hide Inv, OrdersOk;
      ghost var v := V();
      var next := MoveAll();
      MoveKeeps(j, trace, answer, v, next);
      MovesWork(slots, next);
      SameOrders(j, answer, v, v.(slots := next), orders);
      slots := next;
      assert V() == v.(slots := next);
    }

    method MoveAll() returns (next: seq<Slot>)
      requires Valid() && Quiet(slots) && started > 0
      ensures AllMoved(trace, slots, next) && forall k :: 0 <= k < |slots| ==>
        SlotMoves(slots[k], next[k]) && !next[k].Vacant?
    {
      hide Inv;
      next := [];
      for k := 0 to j.n
        invariant |next| == k
        invariant forall i :: 0 <= i < k ==>
          next[i] == Moved(trace, slots[i]) && SlotMoves(slots[i], next[i]) && !next[i].Vacant?
      {
        var s := Move(k);
        next := next + [s];
      }
    }

    method Move(k: nat) returns (s: Slot)
      requires Valid() && Quiet(slots) && started > 0 && k < j.n
      ensures s == Moved(trace, slots[k]) && SlotMoves(slots[k], s) && !s.Vacant?
    {
      if slots[k].Busy? {
        BusyHasNext(j, trace, answer, V(), k);
        var at := slots[k];
        var w := Advance(j.table, at.word, Four(j.packets[at.packet], j.tries[at.trie].dataIndex[at.pos]));
        s := Busy(at.packet, at.trie, at.pos + 1, at.cmplt, w);
      } else {
        IdleWithin(j, trace, answer, V(), k);
        NoBusy(slots);
        IdleRuns(j, trace, answer);
        var w := Advance(j.table, slots[k].word, IdleInput(slots[k].pos));
        s := Free(slots[k].pos + 1, w);
      }
    }

    method Fill()
      requires Valid() && forall k :: 0 <= k < j.n ==> slots[k].Vacant?
      modifies this
      ensures Valid() && forall k :: 0 <= k < j.n ==> !slots[k].Vacant?
    {
      for n := 0 to j.n
        invariant Valid() && forall k :: 0 <= k < j.n ==> (slots[k].Vacant? <==> n <= k)
      {
        StartNext(n);
      }
    }

    /** `rte_acl_classify_scalar` and its wider forms. */
    method Classify()
      requires Valid() && forall k :: 0 <= k < j.n ==> slots[k].Vacant?
      modifies this
      ensures |results| == |j.packets|
      ensures forall p :: 0 <= p < |j.packets| ==> BestRow(answer, p, Numbers(|j.tries|), results[p], j.categories)
      ensures |orders| == |j.packets|
      ensures forall p :: 0 <= p < |j.packets| ==> multiset(orders[p]) == multiset(Numbers(|j.tries|))
      ensures forall p :: 0 <= p < |j.packets| ==> RowFolds(answer, p, orders[p], results[p])
    {
      hide Inv, OrdersOk;
      Fill();
      Settle();
      while started > 0
        invariant Valid() && Quiet(slots)
        decreases LeftBound(j, V(), started), Work(slots)
      {
        LeftIsBounded(j, trace, answer, V(), started);
        Round();
        Settle();
        LeftIsBounded(j, trace, answer, V(), started);
      }
      NoBusy(slots);
      InvShape(j, trace, answer, V());
      forall p | 0 <= p < |j.packets| ensures BestRow(answer, p, Numbers(|j.tries|), results[p], j.categories) {
        Finished(j, trace, answer, V(), p);
      }
      OrdersFinished(j, trace, answer, V(), orders);
    }
  }

  /** A traversal at a match has the answer of its trie at hand, and its record is in use. */
  lemma AtMatch(j: Job, trace: Traces, answer: Answers, v: View, k: nat)
    requires Inv(j, trace, answer, v) && k < j.n && v.slots[k].Busy? && v.slots[k].word.Type() >= MATCH
    ensures var s := v.slots[k];
      && Shape(j, v) && j.categories <= MAX_CATEGORIES
      && BusyOk(j, trace, v, s) && s.word.Addr() < |j.matches| && j.matches[s.word.Addr()] == answer(s.trie, s.packet)
      && |answer(s.trie, s.packet).results| == |answer(s.trie, s.packet).priority| == MAX_CATEGORIES
      && (v.cmplts[s.cmplt].count == |j.tries| <==> v.done[s.packet] == {})
      && (v.done[s.packet] != {} ==>
           BestSoFar(answer, s.packet, v.done[s.packet], v.results[s.packet], v.cmplts[s.cmplt].priority, j.categories))
  {
    var s := v.slots[k];
    assert BusyOk(j, trace, v, s);
    assert Traced(j, j.tries[s.trie], j.packets[s.packet], answer(s.trie, s.packet), trace(s.trie, s.packet));
    assert CmpltOk(j, answer, v, v.cmplts[s.cmplt]);
  }

  lemma InvShape(j: Job, trace: Traces, answer: Answers, v: View)
    requires Inv(j, trace, answer, v)
    ensures Shape(j, v) && |j.tries| >= 1
  {
  }

  /** The first word of the next traversal. */
  lemma FirstWord(j: Job, trace: Traces, answer: Answers, v: View)
    requires Inv(j, trace, answer, v) && v.np < |j.packets|
    ensures v.tr < |j.tries| && |j.tries[v.tr].dataIndex| > 0
    ensures var off, root := j.tries[v.tr].dataIndex[0], j.tries[v.tr].root;
      && off < |j.packets[v.np]| && root + j.packets[v.np][off] < |j.table|
      && |trace(v.tr, v.np)| > 0 && trace(v.tr, v.np)[0] == j.table[j.packets[v.np][off] + root]
  {
    assert Traced(j, j.tries[v.tr], j.packets[v.np], answer(v.tr, v.np), trace(v.tr, v.np));
  }

  ghost function LeftBound(j: Job, v: View, started: nat): int {
    (|j.packets| - v.np) * |j.tries| - v.tr + started
  }

  lemma LeftIsBounded(j: Job, trace: Traces, answer: Answers, v: View, started: nat)
    requires Inv(j, trace, answer, v)
    ensures LeftBound(j, v, started) >= 0
  {
    if v.np < |j.packets| {
      AtLeastOne(|j.packets| - v.np, |j.tries|);
    }
  }

  lemma AtLeastOne(a: nat, b: nat)
    requires a >= 1
    ensures a * b >= b
  {
  }

  /**
    An idle slot never runs off the idle array: every traversal in progress is further along and ends within its data
    indexes.
  */
  lemma IdleWithin(j: Job, trace: Traces, answer: Answers, v: View, k: nat)
    requires Inv(j, trace, answer, v) && k < j.n && v.slots[k].Free? && BusyCount(v.slots) > 0
    ensures v.slots[k].pos < IDLE_SIZE && v.slots[k].word == Idle
  {
    NoBusy(v.slots);
    var b :| 0 <= b < j.n && v.slots[b].Busy?;
    var s := v.slots[b];
    assert BusyOk(j, trace, v, s);
    assert Traced(j, j.tries[s.trie], j.packets[s.packet], answer(s.trie, s.packet), trace(s.trie, s.packet));
  }

  /** `scalar_transition` for each byte of the input. */
  method Advance(table: seq<Word>, w: Word, input: seq<byte>) returns (w': Word)
    requires Safe(table, w, input)
    ensures w' == Run(table, w, input)
  {
    w' := w;
    var rest := input;
    while rest != []
      invariant Safe(table, w', rest) && Run(table, w', rest) == Run(table, w, input)
      decreases |rest|
    {
      w', rest := table[Target(w', rest[0])], rest[1..];
    }
  }
}
