/**
  The order in which the tries of a packet are resolved, and what it decides: of several
  tries with the highest priority in a category, the one resolved last gives the result.
*/
module AclOrder {
  import opened AclTrie
  import opened AclWord
  import opened AclRun
  import opened AclRunSteps

  function ResultAt(m: Match, c: nat): nat { if c < |m.results| then m.results[c] else 0 }

  function PriorityAt(m: Match, c: nat): int { if c < |m.priority| then m.priority[c] else 0 }

  /** Result and priority in category `c` after the tries `order` were resolved one after the other. */
  ghost function Fold(answer: Answers, p: nat, order: seq<nat>, c: nat): (nat, int)
    requires order != []
    decreases |order|
  {
    var n := |order| - 1;
    var m := answer(order[n], p);
    if n == 0 || Fold(answer, p, order[..n], c).1 <= PriorityAt(m, c) then (ResultAt(m, c), PriorityAt(m, c))
    else Fold(answer, p, order[..n], c)
  }

  /** The trie at position `i` has the highest priority, and those after it have less. */
  ghost predicate LastBest(answer: Answers, p: nat, order: seq<nat>, c: nat, i: nat) {
    && i < |order|
    && (forall k :: 0 <= k < i ==> PriorityAt(answer(order[k], p), c) <= PriorityAt(answer(order[i], p), c))
    && (forall k :: i < k < |order| ==> PriorityAt(answer(order[k], p), c) < PriorityAt(answer(order[i], p), c))
  }

  /** The result is that of the last of the best tries. */
  lemma {:induction false} FoldIsLastBest(answer: Answers, p: nat, order: seq<nat>, c: nat) returns (i: nat)
    requires order != []
    ensures LastBest(answer, p, order, c, i)
    ensures Fold(answer, p, order, c) == (ResultAt(answer(order[i], p), c), PriorityAt(answer(order[i], p), c))
    decreases |order|
  {
    var n := |order| - 1;
    if n == 0 || Fold(answer, p, order[..n], c).1 <= PriorityAt(answer(order[n], p), c) {
      i := n;
      if n > 0 {
        var k := FoldIsLastBest(answer, p, order[..n], c);
        assert forall l :: 0 <= l < n ==> order[..n][l] == order[l];
        assert forall l :: 0 <= l < n ==> PriorityAt(answer(order[l], p), c) <= PriorityAt(answer(order[k], p), c);
      }
    } else {
      i := FoldIsLastBest(answer, p, order[..n], c);
      assert forall l :: 0 <= l < n ==> order[..n][l] == order[l];
    }
  }

  lemma {:induction false} FoldSame(a: Answers, b: Answers, p: nat, order: seq<nat>, c: nat)
    requires order != [] && forall t :: t in order ==> a(t, p) == b(t, p)
    ensures Fold(a, p, order, c) == Fold(b, p, order, c)
    decreases |order|
  {
    var n := |order| - 1;
    assert order[n] in order;
    if n > 0 {
      FoldSame(a, b, p, order[..n], c);
    }
  }

  // -------------------------------------------------------------------- kept by the engine

  ghost predicate RowFolds(answer: Answers, p: nat, order: seq<nat>, row: seq<nat>) {
    order != [] ==> forall c: nat :: c < |row| ==> row[c] == Fold(answer, p, order, c).0
  }

  ghost predicate PriorityFolds(answer: Answers, p: nat, order: seq<nat>, priority: seq<int>, categories: nat) {
    order != [] ==> forall c: nat :: c < categories && c < |priority| ==> priority[c] == Fold(answer, p, order, c).1
  }

  ghost predicate RecordFolds(answer: Answers, orders: seq<seq<nat>>, r: Completion, categories: nat) {
    r.count > 0 && r.packet < |orders| ==> PriorityFolds(answer, r.packet, orders[r.packet], r.priority, categories)
  }

  /**
    `orders` lists for each packet the tries resolved so far, each once; results and priorities are those of that order.
  */
  ghost predicate OrdersOk(j: Job, answer: Answers, v: View, orders: seq<seq<nat>>) {
    && |orders| == |v.done| == |v.results|
    && (forall p :: 0 <= p < |orders| ==> multiset(orders[p]) == multiset(v.done[p]))
    && (forall p :: 0 <= p < |orders| ==> RowFolds(answer, p, orders[p], v.results[p]))
    && (forall m :: 0 <= m < |v.cmplts| ==> RecordFolds(answer, orders, v.cmplts[m], j.categories))
  }

  /** The order of a packet is empty exactly when none of its tries is resolved. */
  lemma SameEmpty(order: seq<nat>, done: set<nat>)
    requires multiset(order) == multiset(done)
    ensures order == [] <==> done == {}
    ensures forall t :: t in order <==> t in done
  {
    forall t ensures t in order <==> t in done {
      assert t in multiset(order) <==> t in multiset(done);
    }
    if order != [] { assert order[0] in order; }
    if done != {} { var t :| t in done; assert t in order; }
  }

  /** Slots do not matter. */
  lemma SameOrders(j: Job, answer: Answers, v: View, v': View, orders: seq<seq<nat>>)
    requires OrdersOk(j, answer, v, orders) && v' == v.(slots := v'.slots)
    ensures OrdersOk(j, answer, v', orders)
  {
  }

  /** With no traversal left, every packet has had every trie resolved, each once. */
  lemma OrdersFinished(j: Job, trace: Traces, answer: Answers, v: View, orders: seq<seq<nat>>)
    requires Inv(j, trace, answer, v) && Quiet(v.slots) && OrdersOk(j, answer, v, orders)
    requires forall k :: 0 <= k < j.n ==> !v.slots[k].Busy?
    ensures |orders| == |j.packets| == |v.results|
    ensures forall p :: 0 <= p < |orders| ==>
      multiset(orders[p]) == multiset(Numbers(|j.tries|)) && RowFolds(answer, p, orders[p], v.results[p])
  {
    forall p | 0 <= p < |orders| ensures multiset(orders[p]) == multiset(Numbers(|j.tries|)) {
      AllDone(j, trace, answer, v, p);
    }
  }

  lemma StartOrders(j: Job, trace: Traces, answer: Answers, v: View, k: nat, m: nat, w: Word, orders: seq<seq<nat>>)
    requires CanStart(j, trace, answer, v, k, m, w) && OrdersOk(j, answer, v, orders)
    ensures OrdersOk(j, answer, StartView(j, v, k, m, w), orders)
  {
    var v' := StartView(j, v, k, m, w);
    if v.tr == 0 {
      NothingDone(j, trace, answer, v);
      SameEmpty(orders[v.np], v.done[v.np]);
      forall i | 0 <= i < |v'.cmplts| ensures RecordFolds(answer, orders, v'.cmplts[i], j.categories) {
        if i != m { assert RecordFolds(answer, orders, v.cmplts[i], j.categories); }
      }
    }
  }

  /** A packet that has not been started has no trie resolved. */
  lemma NothingDone(j: Job, trace: Traces, answer: Answers, v: View)
    requires Inv(j, trace, answer, v) && v.np < |j.packets| && v.tr == 0
    ensures v.np < |v.done| && v.done[v.np] == {}
  {
    assert forall t :: t in v.done[v.np] ==> Started(v, v.np, t);
  }

  /** What `Resolve` did to a row and its priorities. */
  ghost predicate Resolved(row: seq<nat>, priority: seq<int>, m: Match, first: bool, row': seq<nat>,
      priority': seq<int>) {
    && |row'| == |row| <= |priority| == |priority'| == |m.results| == |m.priority|
    && forall c :: 0 <= c < |row| ==>
         (row'[c], priority'[c]) ==
           if first || priority[c] <= m.priority[c] then (m.results[c], m.priority[c]) else (row[c], priority[c])
  }

  lemma ResolvedFolds(answer: Answers, p: nat, order: seq<nat>, t: nat, row: seq<nat>, priority: seq<int>,
      row': seq<nat>, priority': seq<int>)
    requires RowFolds(answer, p, order, row) && PriorityFolds(answer, p, order, priority, |row|)
    requires Resolved(row, priority, answer(t, p), order == [], row', priority')
    ensures RowFolds(answer, p, order + [t], row') && PriorityFolds(answer, p, order + [t], priority', |row|)
  {
    assert (order + [t])[..|order|] == order;
  }

  /** Other records in use are for other packets. */
  lemma OtherRecords(j: Job, trace: Traces, answer: Answers, v: View, k: nat, i: nat)
    requires Inv(j, trace, answer, v) && k < j.n && v.slots[k].Busy? && BusyOk(j, trace, v, v.slots[k])
    requires i < j.n && i != v.slots[k].cmplt && v.cmplts[i].count > 0
    ensures v.cmplts[i].packet != v.slots[k].packet
  {
  }

  /** One more trie in the order of packet `p`, whose record is `m`. */
  lemma AddedOrder(j: Job, answer: Answers, v: View, v': View, orders: seq<seq<nat>>, p: nat, t: nat, m: nat)
    requires OrdersOk(j, answer, v, orders) && p < |orders| && t !in v.done[p] && m < |v.cmplts| == |v'.cmplts|
    requires v'.done == v.done[p := v.done[p] + {t}] && |v'.results| == |v.results|
    requires forall q :: 0 <= q < |v.results| && q != p ==> v'.results[q] == v.results[q]
    requires forall i :: 0 <= i < |v.cmplts| && i != m ==> v'.cmplts[i] == v.cmplts[i]
    requires forall i :: 0 <= i < |v.cmplts| && i != m && v.cmplts[i].count > 0 ==> v.cmplts[i].packet != p
    requires v'.cmplts[m].packet == p && RowFolds(answer, p, orders[p] + [t], v'.results[p])
    requires PriorityFolds(answer, p, orders[p] + [t], v'.cmplts[m].priority, j.categories)
    ensures OrdersOk(j, answer, v', orders[p := orders[p] + [t]])
  {
    hide RowFolds, PriorityFolds;
    var orders' := orders[p := orders[p] + [t]];
    assert multiset(v.done[p] + {t}) == multiset(v.done[p]) + multiset{t};
    forall i | 0 <= i < |v'.cmplts| ensures RecordFolds(answer, orders', v'.cmplts[i], j.categories) {
      assert RecordFolds(answer, orders, v.cmplts[i], j.categories);
    }
  }

  lemma FinishOrders(j: Job, trace: Traces, answer: Answers, v: View, k: nat, row: seq<nat>, priority: seq<int>,
      orders: seq<seq<nat>>)
    requires CanFinish(j, trace, answer, v, k, row, priority) && OrdersOk(j, answer, v, orders)
    requires var s := v.slots[k]; var before := v.cmplts[s.cmplt].priority;
      Resolved(v.results[s.packet], before, answer(s.trie, s.packet), v.done[s.packet] == {}, row, priority)
    ensures var s := v.slots[k]; var order := orders[s.packet] + [s.trie];
      s.packet < |orders| && OrdersOk(j, answer, FinishView(v, k, row, priority), orders[s.packet := order])
  {
    hide RowFolds, PriorityFolds, Resolved, BestSoFar;
    var s := v.slots[k];
    var p := s.packet;
    SameEmpty(orders[p], v.done[p]);
    assert RecordFolds(answer, orders, v.cmplts[s.cmplt], j.categories);
    ResolvedFolds(answer, p, orders[p], s.trie, v.results[p], v.cmplts[s.cmplt].priority, row, priority);
    forall i | 0 <= i < |v.cmplts| && i != s.cmplt && v.cmplts[i].count > 0 ensures v.cmplts[i].packet != p {
      OtherRecords(j, trace, answer, v, k, i);
    }
    AddedOrder(j, answer, v, FinishView(v, k, row, priority), orders, p, s.trie, s.cmplt);
  }
}
