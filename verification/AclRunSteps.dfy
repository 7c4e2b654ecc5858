/**
  The steps of the search engine keep its invariant.
*/
module AclRunSteps {
  import opened AclTrie
  import opened AclWord
  import opened AclTable
  import opened AclRun

  // ------------------------------------------------------------------ starting a traversal

  /** The state after trie `v.tr` of packet `v.np` was put into slot `k` with completion record `m`. */
  function StartView(j: Job, v: View, k: nat, m: nat, w: Word): View
    requires k < |v.slots| && m < |v.cmplts|
  {
    v.(
    last := m,
    cmplts := if v.tr == 0 then v.cmplts[m := Completion(v.np, v.cmplts[m].priority, |j.tries|)] else v.cmplts,
    slots := v.slots[k := Busy(v.np, v.tr, 1, m, w)],
    tr := if v.tr + 1 >= |j.tries| then 0 else v.tr + 1,
    np := if v.tr + 1 >= |j.tries| then v.np + 1 else v.np)
  }

  ghost predicate CanStart(j: Job, trace: Traces, answer: Answers, v: View, k: nat, m: nat, w: Word) {
    && Inv(j, trace, answer, v) && v.np < |j.packets| && k < j.n && m < j.n && !v.slots[k].Busy?
    && (if v.tr == 0 then v.cmplts[m].count == 0 else m == v.last)
    && w == trace(v.tr, v.np)[0]
  }

  lemma StartedStep(j: Job, v: View, v': View, p: nat, t: nat)
    requires v.tr < |j.tries| && t < |j.tries|
    requires v'.tr == (if v.tr + 1 >= |j.tries| then 0 else v.tr + 1) &&
      v'.np == (if v.tr + 1 >= |j.tries| then v.np + 1 else v.np)
    ensures Started(v', p, t) <==> Started(v, p, t) || (p == v.np && t == v.tr)
  {
  }

  lemma StartBusy(j: Job, trace: Traces, answer: Answers, v: View, k: nat, m: nat, w: Word)
    requires CanStart(j, trace, answer, v, k, m, w) && Shape(j, StartView(j, v, k, m, w))
    ensures AllBusyOk(j, trace, StartView(j, v, k, m, w))
  {
    var v' := StartView(j, v, k, m, w);
    forall i | 0 <= i < j.n && v'.slots[i].Busy? ensures BusyOk(j, trace, v', v'.slots[i]) {
      var s := v'.slots[i];
      if i == k {
        StartedStep(j, v, v', v.np, v.tr);
        assert Traced(j, j.tries[v.tr], j.packets[v.np], answer(v.tr, v.np), trace(v.tr, v.np));
      } else {
        assert BusyOk(j, trace, v, s);
        StartedStep(j, v, v', s.packet, s.trie);
      }
    }
  }

  lemma StartCovers(j: Job, trace: Traces, answer: Answers, v: View, k: nat, m: nat, w: Word)
    requires CanStart(j, trace, answer, v, k, m, w) && Shape(j, StartView(j, v, k, m, w))
    ensures SlotsDiffer(StartView(j, v, k, m, w).slots) && Covered(j, StartView(j, v, k, m, w))
  {
    var v' := StartView(j, v, k, m, w);
    forall a: nat, b: nat, p: nat, t: nat | Holds(v'.slots, a, p, t) && Holds(v'.slots, b, p, t) ensures a == b {
      NotYetHeld(j, trace, answer, v, a);
      NotYetHeld(j, trace, answer, v, b);
      if a != k && b != k { assert Holds(v.slots, a, p, t) && Holds(v.slots, b, p, t); }
    }
    forall p, t | 0 <= p < |j.packets| && 0 <= t < |j.tries| && Started(v', p, t) && t !in v'.done[p]
      ensures exists i: nat :: Holds(v'.slots, i, p, t)
    {
      StartedStep(j, v, v', p, t);
      if p == v.np && t == v.tr {
        assert Holds(v'.slots, k, p, t);
      } else {
        var i: nat :| Holds(v.slots, i, p, t);
        assert Holds(v'.slots, i, p, t);
      }
    }
  }

  lemma NotYetHeld(j: Job, trace: Traces, answer: Answers, v: View, a: nat)
    requires Inv(j, trace, answer, v)
    ensures !Holds(v.slots, a, v.np, v.tr)
  {
    assert a < j.n && v.slots[a].Busy? ==> BusyOk(j, trace, v, v.slots[a]);
  }

  lemma StartCmplts(j: Job, trace: Traces, answer: Answers, v: View, k: nat, m: nat, w: Word)
    requires CanStart(j, trace, answer, v, k, m, w) && Shape(j, StartView(j, v, k, m, w))
    ensures AllCmpltOk(j, answer, StartView(j, v, k, m, w))
  {
    var v' := StartView(j, v, k, m, w);
    forall i | 0 <= i < j.n && v'.cmplts[i].count > 0 ensures CmpltOk(j, answer, v', v'.cmplts[i]) {
      if v.tr == 0 && i == m {
        assert v.done[v.np] == {} by {
          assert forall t :: t in v.done[v.np] ==> Started(v, v.np, t);
        }
        StartedStep(j, v, v', v.np, 0);
      } else {
        assert CmpltOk(j, answer, v, v.cmplts[i]);
        StartedStep(j, v, v', v.cmplts[i].packet, 0);
      }
    }
    forall i | 0 <= i < j.n && v.cmplts[i].count > 0 && v.tr == 0 ensures v.cmplts[i].packet != v.np {
      assert CmpltOk(j, answer, v, v.cmplts[i]);
    }
  }

  lemma StartKeeps(j: Job, trace: Traces, answer: Answers, v: View, k: nat, m: nat, w: Word)
    requires CanStart(j, trace, answer, v, k, m, w)
    ensures Inv(j, trace, answer, StartView(j, v, k, m, w))
  {
    var v' := StartView(j, v, k, m, w);
    assert Shape(j, v');
    StartBusy(j, trace, answer, v, k, m, w);
    StartCovers(j, trace, answer, v, k, m, w);
    StartCmplts(j, trace, answer, v, k, m, w);
    forall p, t | 0 <= p < |v'.done| && t in v'.done[p] ensures t < |j.tries| && Started(v', p, t) {
      StartedStep(j, v, v', p, t);
    }
  }

  /** Nothing left to start: the slot becomes idle. */
  lemma IdleKeeps(j: Job, trace: Traces, answer: Answers, v: View, k: nat)
    requires Inv(j, trace, answer, v) && v.np == |j.packets| && k < j.n && !v.slots[k].Busy?
    ensures Inv(j, trace, answer, v.(slots := v.slots[k := Free(0, Idle)]))
  {
    var v' := v.(slots := v.slots[k := Free(0, Idle)]);
    assert Shape(j, v');
    SameBusy(j, trace, answer, v, v', k);
  }

  /** Changing a slot that holds no traversal. */
  lemma SameBusy(j: Job, trace: Traces, answer: Answers, v: View, v': View, k: nat)
    requires Inv(j, trace, answer, v) && k < j.n && !v.slots[k].Busy?
    requires |v'.slots| == j.n && !v'.slots[k].Busy? && v' == v.(slots := v.slots[k := v'.slots[k]])
    ensures DoneOk(j, v') && Shape(j, v') && AllBusyOk(j, trace, v') && SlotsDiffer(v'.slots) && Covered(j, v') &&
      AllCmpltOk(j, answer, v') && RowsOk(j, answer, v')
  {
    forall i | 0 <= i < j.n && v'.slots[i].Busy? ensures BusyOk(j, trace, v', v'.slots[i]) {
      assert BusyOk(j, trace, v, v.slots[i]);
    }
    forall a: nat, p: nat, t: nat ensures Holds(v.slots, a, p, t) <==> Holds(v'.slots, a, p, t) { }
    forall p, t | 0 <= p < |j.packets| && 0 <= t < |j.tries| && Started(v', p, t) && t !in v'.done[p]
      ensures exists i: nat :: Holds(v'.slots, i, p, t)
    {
      assert Started(v, p, t);
      var i: nat :| Holds(v.slots, i, p, t);
      assert Holds(v'.slots, i, p, t);
    }
    forall i | 0 <= i < j.n && v'.cmplts[i].count > 0 ensures CmpltOk(j, answer, v', v'.cmplts[i]) {
      assert CmpltOk(j, answer, v, v.cmplts[i]);
    }
  }

  // ---------------------------------------------------------------- resolving a traversal

  /** The state after the traversal in slot `k` was resolved to `row` and `priority`. */
  function FinishView(v: View, k: nat, row: seq<nat>, priority: seq<int>): View
    requires k < |v.slots| && v.slots[k].Busy?
    requires var s := v.slots[k];
      s.packet < |v.done| && s.packet < |v.results| && s.cmplt < |v.cmplts| && v.cmplts[s.cmplt].count > 0
  {
    var s := v.slots[k];
    v.(
    done := v.done[s.packet := v.done[s.packet] + {s.trie}],
    results := v.results[s.packet := row],
    cmplts := v.cmplts[s.cmplt := Completion(s.packet, priority, v.cmplts[s.cmplt].count - 1)],
    slots := v.slots[k := Vacant])
  }

  ghost predicate CanFinish(j: Job, trace: Traces, answer: Answers, v: View, k: nat, row: seq<nat>,
      priority: seq<int>) {
    && Inv(j, trace, answer, v) && k < j.n && v.slots[k].Busy? && BusyOk(j, trace, v, v.slots[k])
    && |row| == j.categories && |priority| == MAX_CATEGORIES
    && var s := v.slots[k];
       BestSoFar(answer, s.packet, v.done[s.packet] + {s.trie}, row, priority, j.categories)
  }

  lemma FinishBusy(j: Job, trace: Traces, answer: Answers, v: View, k: nat, row: seq<nat>, priority: seq<int>)
    requires CanFinish(j, trace, answer, v, k, row, priority) && Shape(j, FinishView(v, k, row, priority))
    ensures AllBusyOk(j, trace, FinishView(v, k, row, priority))
  {
    var v', s := FinishView(v, k, row, priority), v.slots[k];
    forall i | 0 <= i < j.n && v'.slots[i].Busy? ensures BusyOk(j, trace, v', v'.slots[i]) {
      var u := v'.slots[i];
      assert BusyOk(j, trace, v, u);
      assert Holds(v.slots, i, u.packet, u.trie) && Holds(v.slots, k, s.packet, s.trie);
      assert u.packet != s.packet || u.trie != s.trie;
      StillCounted(j, trace, answer, v, k, u);
    }
  }

  /** A record that another slot relies on still has tries to count. */
  lemma StillCounted(j: Job, trace: Traces, answer: Answers, v: View, k: nat, u: Slot)
    requires Inv(j, trace, answer, v) && k < j.n && v.slots[k].Busy? && BusyOk(j, trace, v, v.slots[k])
    requires u.Busy? && BusyOk(j, trace, v, u) && (u.packet != v.slots[k].packet || u.trie != v.slots[k].trie)
    ensures u.cmplt == v.slots[k].cmplt ==> v.cmplts[u.cmplt].count > 1
  {
    hide JobOk, SlotsDiffer, Covered, IdleOk, RowsOk, AllBusyOk;
    var s := v.slots[k];
    if u.cmplt == s.cmplt {
      assert u.packet == s.packet;
      var d := v.done[s.packet];
      assert CmpltOk(j, answer, v, v.cmplts[s.cmplt]);
      assert forall t :: t in d ==> t < |j.tries|;
      Fewer(d + {s.trie} + {u.trie}, |j.tries|);
    }
  }

  lemma {:induction false} Fewer(s: set<nat>, n: nat)
    requires forall x :: x in s ==> x < n
    ensures |s| <= n
  {
    if n == 0 {
      assert s == {};
    } else {
      Fewer(s - {n - 1}, n - 1);
    }
  }

  lemma FinishCovers(j: Job, trace: Traces, answer: Answers, v: View, k: nat, row: seq<nat>, priority: seq<int>)
    requires CanFinish(j, trace, answer, v, k, row, priority) && Shape(j, FinishView(v, k, row, priority))
    ensures SlotsDiffer(FinishView(v, k, row, priority).slots) && Covered(j, FinishView(v, k, row, priority))
  {
    var v', s := FinishView(v, k, row, priority), v.slots[k];
    forall a: nat, b: nat, p: nat, t: nat | Holds(v'.slots, a, p, t) && Holds(v'.slots, b, p, t) ensures a == b {
      assert Holds(v.slots, a, p, t) && Holds(v.slots, b, p, t);
    }
    forall p, t | 0 <= p < |j.packets| && 0 <= t < |j.tries| && Started(v', p, t) && t !in v'.done[p]
      ensures exists i: nat :: Holds(v'.slots, i, p, t)
    {
      assert Started(v, p, t) && t !in v.done[p];
      var i: nat :| Holds(v.slots, i, p, t);
      assert i != k;
      assert Holds(v'.slots, i, p, t);
    }
  }

  lemma FinishCmplts(j: Job, trace: Traces, answer: Answers, v: View, k: nat, row: seq<nat>, priority: seq<int>)
    requires CanFinish(j, trace, answer, v, k, row, priority) && Shape(j, FinishView(v, k, row, priority))
    ensures AllCmpltOk(j, answer, FinishView(v, k, row, priority))
  {
    var v', s := FinishView(v, k, row, priority), v.slots[k];
    assert CmpltOk(j, answer, v, v.cmplts[s.cmplt]);
    forall i | 0 <= i < j.n && v'.cmplts[i].count > 0 ensures CmpltOk(j, answer, v', v'.cmplts[i]) {
      if i != s.cmplt {
        assert CmpltOk(j, answer, v, v.cmplts[i]);
        assert v.cmplts[i].packet != s.packet;
      }
    }
    if v.tr > 0 && v.last == s.cmplt {
      Unstarted(j, trace, answer, v, s);
    }
  }

  /** The packet being started has a trie that is in no slot. */
  lemma Unstarted(j: Job, trace: Traces, answer: Answers, v: View, s: Slot)
    requires Inv(j, trace, answer, v) && v.tr > 0 && s.Busy? && BusyOk(j, trace, v, s) && s.cmplt == v.last
    ensures v.cmplts[v.last].count > 1
  {
    var d := v.done[s.packet];
    assert CmpltOk(j, answer, v, v.cmplts[s.cmplt]);
    assert s.packet == v.np;
    forall t | t in d ensures t < v.tr { assert Started(v, v.np, t); }
    Fewer(d + {s.trie}, v.tr);
  }

  lemma FinishKeeps(j: Job, trace: Traces, answer: Answers, v: View, k: nat, row: seq<nat>, priority: seq<int>)
    requires CanFinish(j, trace, answer, v, k, row, priority)
    ensures Inv(j, trace, answer, FinishView(v, k, row, priority))
  {
    var v', s := FinishView(v, k, row, priority), v.slots[k];
    assert Shape(j, v');
    FinishBusy(j, trace, answer, v, k, row, priority);
    FinishCovers(j, trace, answer, v, k, row, priority);
    FinishCmplts(j, trace, answer, v, k, row, priority);
    SoFarIsRow(answer, s.packet, v.done[s.packet] + {s.trie}, row, priority, j.categories);
    forall p, t | 0 <= p < |v'.done| && t in v'.done[p] ensures t < |j.tries| && Started(v', p, t) {
      assert Started(v, p, t);
    }
  }

  // ------------------------------------------------------------------- one round of input

  /** A slot after the next four bytes. */
  ghost function Moved(trace: Traces, s: Slot): Slot {
    match s
    case Vacant => s
    case Free(pos, word) => Free(pos + 1, word)
    case Busy(p, t, pos, m, word) => Busy(p, t, pos + 1, m, if pos < |trace(t, p)| then trace(t, p)[pos] else word)
  }

  ghost predicate AllMoved(trace: Traces, a: seq<Slot>, b: seq<Slot>) {
    |a| == |b| && forall k :: 0 <= k < |a| ==> b[k] == Moved(trace, a[k])
  }

  /** No slot is at a match. */
  ghost predicate Quiet(slots: seq<Slot>) {
    forall k :: 0 <= k < |slots| ==> !slots[k].Vacant? && slots[k].word.Type() < MATCH
  }

  lemma BusyHasNext(j: Job, trace: Traces, answer: Answers, v: View, k: nat)
    requires Inv(j, trace, answer, v) && k < j.n && v.slots[k].Busy? && v.slots[k].word.Type() < MATCH
    ensures var s := v.slots[k];
      && s.packet < |j.packets| && s.trie < |j.tries| && s.pos < |j.tries[s.trie].dataIndex| <= MAX_FIELDS
      && var off := j.tries[s.trie].dataIndex[s.pos];
         && InPacket(j.packets[s.packet], off)
         && Safe(j.table, s.word, Four(j.packets[s.packet], off))
         && Moved(trace, s) == s.(pos := s.pos + 1, word := Run(j.table, s.word, Four(j.packets[s.packet], off)))
  {
    hide Traced, Safe, Run, Four;
    var s := v.slots[k];
    assert BusyOk(j, trace, v, s);
    assert Traced(j, j.tries[s.trie], j.packets[s.packet], answer(s.trie, s.packet), trace(s.trie, s.packet));
    NotAtEnd(j, j.tries[s.trie], j.packets[s.packet], answer(s.trie, s.packet), trace(s.trie, s.packet), s.pos);
  }

  /** A traversal that is not at a match is not at its end. */
  lemma NotAtEnd(j: Job, ref: TrieRef, pkt: seq<byte>, answer: Match, trace: seq<Word>, pos: nat)
    requires Traced(j, ref, pkt, answer, trace) && 1 <= pos <= |trace| && trace[pos - 1].Type() < MATCH
    ensures pos < |trace| == |ref.dataIndex| <= MAX_FIELDS && InPacket(pkt, ref.dataIndex[pos])
    ensures var input := Four(pkt, ref.dataIndex[pos]);
      Safe(j.table, trace[pos - 1], input) && trace[pos] == Run(j.table, trace[pos - 1], input)
  {
    hide Safe, Run, Four;
  }

  lemma MoveOne(j: Job, trace: Traces, v: View, v': View, s: Slot)
    requires Shape(j, v) && Shape(j, v') && v' == v.(slots := v'.slots)
    requires s.Busy? && BusyOk(j, trace, v, s) && s.pos < |trace(s.trie, s.packet)|
    ensures BusyOk(j, trace, v', Moved(trace, s))
  {
    assert Started(v', s.packet, s.trie) == Started(v, s.packet, s.trie);
  }

  lemma MoveBusy(j: Job, trace: Traces, answer: Answers, v: View, slots: seq<Slot>)
    requires Inv(j, trace, answer, v) && Quiet(v.slots) && AllMoved(trace, v.slots, slots) &&
      Shape(j, v.(slots := slots))
    ensures AllBusyOk(j, trace, v.(slots := slots))
  {
    hide Traced, Covered, AllCmpltOk, IdleOk, RowsOk, DoneOk, SlotsDiffer;
    var v' := v.(slots := slots);
    forall i | 0 <= i < j.n && v'.slots[i].Busy? ensures BusyOk(j, trace, v', v'.slots[i]) {
      assert slots[i] == Moved(trace, v.slots[i]);
      var s := v.slots[i];
      assert BusyOk(j, trace, v, s);
      NotAtEnd(j, j.tries[s.trie], j.packets[s.packet], answer(s.trie, s.packet), trace(s.trie, s.packet), s.pos);
      MoveOne(j, trace, v, v', s);
    }
  }

  lemma MoveCovers(j: Job, trace: Traces, answer: Answers, v: View, slots: seq<Slot>)
    requires Inv(j, trace, answer, v) && AllMoved(trace, v.slots, slots) && Shape(j, v.(slots := slots))
    ensures SlotsDiffer(slots) && Covered(j, v.(slots := slots))
  {
    var v' := v.(slots := slots);
    forall a: nat, p: nat, t: nat ensures Holds(v.slots, a, p, t) <==> Holds(slots, a, p, t) {
      assert a < |slots| ==> slots[a] == Moved(trace, v.slots[a]);
    }
    forall p, t | 0 <= p < |j.packets| && 0 <= t < |j.tries| && Started(v', p, t) && t !in v'.done[p]
      ensures exists i: nat :: Holds(slots, i, p, t)
    {
      assert Started(v, p, t);
      var i: nat :| Holds(v.slots, i, p, t);
      assert Holds(slots, i, p, t);
    }
  }

  lemma MoveIdle(j: Job, trace: Traces, v: View, slots: seq<Slot>)
    requires Shape(j, v) && IdleOk(j, v) && AllMoved(trace, v.slots, slots) && Shape(j, v.(slots := slots))
    ensures IdleOk(j, v.(slots := slots))
  {
    forall k | 0 <= k < j.n ensures slots[k] == Moved(trace, v.slots[k]) { }
  }

  lemma MoveKeeps(j: Job, trace: Traces, answer: Answers, v: View, slots: seq<Slot>)
    requires Inv(j, trace, answer, v) && Quiet(v.slots) && AllMoved(trace, v.slots, slots)
    ensures Inv(j, trace, answer, v.(slots := slots))
  {
    var v' := v.(slots := slots);
    assert Shape(j, v');
    MoveBusy(j, trace, answer, v, slots);
    MoveCovers(j, trace, answer, v, slots);
    MoveIdle(j, trace, v, slots);
    forall i | 0 <= i < j.n && v'.cmplts[i].count > 0 ensures CmpltOk(j, answer, v', v'.cmplts[i]) {
      assert CmpltOk(j, answer, v, v.cmplts[i]);
    }
    forall p, t | 0 <= p < |v'.done| && t in v'.done[p] ensures t < |j.tries| && Started(v', p, t) {
      assert Started(v, p, t);
    }
  }

  // ----------------------------------------------------------------------------- the end

  /** With no traversal left, every packet has the results of its best tries. */
  lemma Finished(j: Job, trace: Traces, answer: Answers, v: View, p: nat)
    requires Inv(j, trace, answer, v) && Quiet(v.slots) && p < |j.packets|
    requires forall k :: 0 <= k < j.n ==> !v.slots[k].Busy?
    ensures BestRow(answer, p, Numbers(|j.tries|), v.results[p], j.categories)
  {
    AllDone(j, trace, answer, v, p);
    assert 0 in v.done[p];
  }

  /** With no traversal left, all tries of all packets are resolved. */
  lemma AllDone(j: Job, trace: Traces, answer: Answers, v: View, p: nat)
    requires Inv(j, trace, answer, v) && Quiet(v.slots) && p < |j.packets|
    requires forall k :: 0 <= k < j.n ==> !v.slots[k].Busy?
    ensures p < |v.done| && v.done[p] == Numbers(|j.tries|)
  {
    assert v.slots[0].Free?;
    assert v.np == |j.packets|;
    forall t | 0 <= t < |j.tries| ensures t in v.done[p] {
      assert Started(v, p, t);
      assert !(exists k: nat :: Holds(v.slots, k, p, t));
    }
    assert v.done[p] == Numbers(|j.tries|);
  }
}
