/**
  The parallel search engine: several trie traversals at a time, each of one
  trie of one packet, with a completion record per packet in progress.

  The source has copies of this engine for 2, 4, 8 and 16 traversals; here the
  number of slots is a parameter.
*/
module AclRun {
  import opened AclTrie
  import opened AclWord
  import opened AclGen
  import opened AclTable

  const MAX_FIELDS: nat := 64

  datatype TrieRef = TrieRef(root: nat, dataIndex: seq<nat>)

  /** What one classification call works on. */
  datatype Job = Job(table: seq<Word>, matches: seq<Match>, tries: seq<TrieRef>, packets: seq<seq<byte>>,
    categories: nat, n: nat)

  datatype Completion = Completion(packet: nat, priority: seq<int>, count: nat)

  /** A slot of the engine: to be filled, idle, or traversing a trie of a packet. */
  datatype Slot = Vacant | Free(pos: nat, word: Word) | Busy(packet: nat, trie: nat, pos: nat, cmplt: nat, word: Word)

  // ----------------------------------------------------- what a traversal is to go through

  ghost predicate InPacket(pkt: seq<byte>, offset: nat) { offset + 4 <= |pkt| }

  function Four(pkt: seq<byte>, offset: nat): (s: seq<byte>)
    requires InPacket(pkt, offset)
    ensures |s| == 4
  {
    pkt[offset..offset + 4]
  }

  /** Trie `t` leads packet `pkt` through the words `trace`, one per data index, to `answer`. */
  ghost predicate Traced(j: Job, ref: TrieRef, pkt: seq<byte>, answer: Match, trace: seq<Word>) {
    var di := ref.dataIndex;
    && 1 <= |di| == |trace| <= MAX_FIELDS
    && (forall i :: 0 <= i < |di| ==> if i == 0 then di[0] < |pkt| else InPacket(pkt, di[i]))
    && ref.root + pkt[di[0]] < |j.table| && trace[0] == j.table[ref.root + pkt[di[0]]]
    && (forall i :: 1 <= i < |di| && trace[i - 1].Type() < MATCH ==>
          Safe(j.table, trace[i - 1], Four(pkt, di[i])) && trace[i] == Run(j.table, trace[i - 1], Four(pkt, di[i])))
    && (forall i :: 0 <= i < |di| && trace[i].Type() >= MATCH ==>
          trace[i].Addr() < |j.matches| && j.matches[trace[i].Addr()] == answer)
    && trace[|di| - 1].Type() >= MATCH
  }

  type Traces = (nat, nat) -> seq<Word>
  type Answers = (nat, nat) -> Match

  /** Every trie leads every packet to its answer. */
  ghost predicate JobOk(j: Job, trace: Traces, answer: Answers) {
    && |j.tries| >= 1 && j.n >= 1 && 1 <= j.categories <= MAX_CATEGORIES && Base(j.table)
    && forall t, p :: 0 <= t < |j.tries| && 0 <= p < |j.packets| ==>
         && Traced(j, j.tries[t], j.packets[p], answer(t, p), trace(t, p))
         && |answer(t, p).results| == |answer(t, p).priority| == MAX_CATEGORIES
  }

  // ------------------------------------------------------------------ best of some tries

  /** `t` is one of the tries `d` with the highest priority in category `c`. */
  ghost predicate IsBest(answer: Answers, p: nat, d: set<nat>, c: nat, t: nat) {
    && t in d && c < |answer(t, p).priority|
    && forall u :: u in d ==> c < |answer(u, p).priority| && answer(u, p).priority[c] <= answer(t, p).priority[c]
  }

  /** `t` is a best trie in category `c` and `result` is its result. */
  ghost predicate Chosen(answer: Answers, p: nat, d: set<nat>, c: nat, t: nat, result: nat) {
    IsBest(answer, p, d, c, t) && c < |answer(t, p).results| && result == answer(t, p).results[c]
  }

  ghost predicate SomeChosen(answer: Answers, p: nat, d: set<nat>, c: nat, result: nat) {
    exists t: nat :: Chosen(answer, p, d, c, t, result)
  }

  /** Each result is that of a best trie. */
  ghost predicate BestRow(answer: Answers, p: nat, d: set<nat>, row: seq<nat>, categories: nat) {
    |row| == categories && forall c: nat :: c < categories ==> SomeChosen(answer, p, d, c, row[c])
  }

  ghost predicate Winner(answer: Answers, p: nat, d: set<nat>, c: nat, t: nat, result: nat, priority: int) {
    Chosen(answer, p, d, c, t, result) && priority == answer(t, p).priority[c]
  }

  ghost predicate SomeWinner(answer: Answers, p: nat, d: set<nat>, c: nat, result: nat, priority: int) {
    exists t: nat :: Winner(answer, p, d, c, t, result, priority)
  }

  /** Each result is that of a best trie, and `priority` is that trie's priority. */
  ghost predicate BestSoFar(answer: Answers, p: nat, d: set<nat>, row: seq<nat>, priority: seq<int>, categories: nat) {
    |row| == categories <= |priority| && forall c: nat :: c < categories ==>
      SomeWinner(answer, p, d, c, row[c], priority[c])
  }

  lemma SoFarIsRow(answer: Answers, p: nat, d: set<nat>, row: seq<nat>, priority: seq<int>, categories: nat)
    requires BestSoFar(answer, p, d, row, priority, categories)
    ensures BestRow(answer, p, d, row, categories)
  {
    forall c: nat | c < categories ensures SomeChosen(answer, p, d, c, row[c]) {
      assert SomeWinner(answer, p, d, c, row[c], priority[c]);
      var t: nat :| Winner(answer, p, d, c, t, row[c], priority[c]);
      assert Chosen(answer, p, d, c, t, row[c]);
    }
  }

  /**
    `resolve_priority_scalar` and `resolve_single_priority`: the first trie's results are taken, later ones replace
    those not better.
  */
  method Resolve(row: seq<nat>, priority: seq<int>, m: Match, first: bool, categories: nat) returns (row': seq<nat>,
      priority': seq<int>)
    requires |row| == categories <= MAX_CATEGORIES && |priority| == MAX_CATEGORIES &&
      |m.results| == |m.priority| == MAX_CATEGORIES
    ensures |row'| == categories && |priority'| == MAX_CATEGORIES
    ensures forall c :: 0 <= c < categories ==>
      (row'[c], priority'[c]) ==
        if first || priority[c] <= m.priority[c] then (m.results[c], m.priority[c]) else (row[c], priority[c])
  {
    row', priority' := row, priority;
    for i := 0 to categories
      invariant |row'| == categories && |priority'| == MAX_CATEGORIES
      invariant forall c :: i <= c < categories ==> row'[c] == row[c] && priority'[c] == priority[c]
      invariant forall c :: 0 <= c < i ==>
        (row'[c], priority'[c]) ==
          if first || priority[c] <= m.priority[c] then (m.results[c], m.priority[c]) else (row[c], priority[c])
    {
      if first || priority'[i] <= m.priority[i] {
        row', priority' := row'[i := m.results[i]], priority'[i := m.priority[i]];
      }
    }
  }

  lemma ResolveKeepsBest(answer: Answers, p: nat, d: set<nat>, t: nat, row: seq<nat>, priority: seq<int>,
      row': seq<nat>, priority': seq<int>, categories: nat)
    requires |answer(t, p).results| == |answer(t, p).priority| == MAX_CATEGORIES && categories <= MAX_CATEGORIES
    requires |row| == |row'| == categories && |priority| == |priority'| == MAX_CATEGORIES
    requires d != {} ==> BestSoFar(answer, p, d, row, priority, categories)
    requires forall c :: 0 <= c < categories ==>
      (row'[c], priority'[c]) ==
        if d == {} || priority[c] <= answer(t, p).priority[c] then (answer(t, p).results[c],
          answer(t, p).priority[c]) else (row[c], priority[c])
    ensures BestSoFar(answer, p, d + {t}, row', priority', categories)
  {
    forall c: nat | c < categories ensures SomeWinner(answer, p, d + {t}, c, row'[c], priority'[c]) {
      if d == {} {
        assert Winner(answer, p, d + {t}, c, t, row'[c], priority'[c]);
      } else {
        assert SomeWinner(answer, p, d, c, row[c], priority[c]);
        var u: nat :| Winner(answer, p, d, c, u, row[c], priority[c]);
        if priority[c] <= answer(t, p).priority[c] {
          assert Winner(answer, p, d + {t}, c, t, row'[c], priority'[c]);
        } else {
          assert Winner(answer, p, d + {t}, c, u, row'[c], priority'[c]);
        }
      }
    }
  }

  // ------------------------------------------------------------------- the engine's state

  /** The state of a search; `done` is, for each packet, the tries that have been resolved. */
  datatype View = View(np: nat, tr: nat, last: nat, cmplts: seq<Completion>, slots: seq<Slot>, results: seq<seq<nat>>,
    done: seq<set<nat>>)

  ghost predicate Shape(j: Job, v: View) {
    && |v.cmplts| == |v.slots| == j.n && |v.results| == |v.done| == |j.packets|
    && (forall p :: 0 <= p < |v.results| ==> |v.results[p]| == j.categories)
    && (forall m :: 0 <= m < j.n ==> |v.cmplts[m].priority| == MAX_CATEGORIES)
    && v.np <= |j.packets| && v.tr < |j.tries| && (v.np == |j.packets| ==> v.tr == 0) && v.last < j.n
  }

  /** Trie `t` of packet `p` has been put into a slot. */
  ghost predicate Started(v: View, p: nat, t: nat) { p < v.np || (p == v.np && t < v.tr) }

  ghost predicate DoneOk(j: Job, v: View) {
    forall p, t :: 0 <= p < |v.done| && t in v.done[p] ==> t < |j.tries| && Started(v, p, t)
  }

  /** A traversal in progress is where its trace says. */
  ghost predicate BusyOk(j: Job, trace: Traces, v: View, s: Slot)
    requires Shape(j, v) && s.Busy?
  {
    && s.packet < |j.packets| && s.trie < |j.tries| && Started(v, s.packet, s.trie) && s.trie !in v.done[s.packet]
    && 1 <= s.pos <= |trace(s.trie, s.packet)| && s.word == trace(s.trie, s.packet)[s.pos - 1]
    && s.cmplt < j.n && v.cmplts[s.cmplt].count > 0 && v.cmplts[s.cmplt].packet == s.packet
  }

  ghost predicate AllBusyOk(j: Job, trace: Traces, v: View)
    requires Shape(j, v)
  {
    forall k :: 0 <= k < j.n && v.slots[k].Busy? ==> BusyOk(j, trace, v, v.slots[k])
  }

  ghost predicate Holds(slots: seq<Slot>, k: nat, p: nat, t: nat) {
    k < |slots| && slots[k].Busy? && slots[k].packet == p && slots[k].trie == t
  }

  /** No two slots traverse the same trie of the same packet. */
  ghost predicate SlotsDiffer(slots: seq<Slot>) {
    forall a: nat, b: nat, p: nat, t: nat :: Holds(slots, a, p, t) && Holds(slots, b, p, t) ==> a == b
  }

  /** Every trie that was started and is not resolved is in a slot. */
  ghost predicate Covered(j: Job, v: View)
    requires Shape(j, v)
  {
    forall p, t :: 0 <= p < |j.packets| && 0 <= t < |j.tries| && Started(v, p, t) && t !in v.done[p] ==>
      exists k: nat :: Holds(v.slots, k, p, t)
  }

  /** A completion record in use counts the unresolved tries of its packet and knows the best of the others. */
  ghost predicate CmpltOk(j: Job, answer: Answers, v: View, c: Completion)
    requires Shape(j, v)
  {
    && c.packet < |j.packets| && Started(v, c.packet, 0)
    && |v.done[c.packet]| + c.count == |j.tries|
    && (v.done[c.packet] != {} ==>
         BestSoFar(answer, c.packet, v.done[c.packet], v.results[c.packet], c.priority, j.categories))
  }

  ghost predicate AllCmpltOk(j: Job, answer: Answers, v: View)
    requires Shape(j, v)
  {
    && (forall m :: 0 <= m < j.n && v.cmplts[m].count > 0 ==> CmpltOk(j, answer, v, v.cmplts[m]))
    && (forall a, b :: 0 <= a < b < j.n && v.cmplts[a].count > 0 && v.cmplts[b].count > 0 ==>
         v.cmplts[a].packet != v.cmplts[b].packet)
    && (v.tr > 0 ==> v.cmplts[v.last].count > 0 && v.cmplts[v.last].packet == v.np)
  }

  /**
    A slot is idle only when there is nothing left to start, and it has been so for less long than any other traversal.
  */
  ghost predicate IdleOk(j: Job, v: View)
    requires Shape(j, v)
  {
    forall k :: 0 <= k < j.n && v.slots[k].Free? ==>
      && v.slots[k].word == Idle && v.np == |j.packets|
      && forall b :: 0 <= b < j.n && v.slots[b].Busy? ==> v.slots[k].pos < v.slots[b].pos
  }

  ghost predicate RowsOk(j: Job, answer: Answers, v: View)
    requires Shape(j, v)
  {
    forall p :: 0 <= p < |j.packets| && v.done[p] != {} ==> BestRow(answer, p, v.done[p], v.results[p], j.categories)
  }

  ghost predicate Inv(j: Job, trace: Traces, answer: Answers, v: View) {
    && JobOk(j, trace, answer) && Shape(j, v) && DoneOk(j, v)
    && AllBusyOk(j, trace, v) && SlotsDiffer(v.slots) && Covered(j, v)
    && AllCmpltOk(j, answer, v) && IdleOk(j, v) && RowsOk(j, answer, v)
  }

  // ------------------------------------------------------- a completion record can be found

  ghost function Numbers(n: nat): (s: set<nat>)
    ensures |s| == n && forall x: nat :: x in s <==> x < n
  {
    if n == 0 then {} else Numbers(n - 1) + {n - 1}
  }

  lemma Missing(s: set<nat>, n: nat)
    requires |s| < n && forall x :: x in s ==> x < n
    ensures exists t: nat :: t < n && t !in s
  {
    assert (forall t: nat :: t < n ==> t in s) ==> s == Numbers(n);
  }

  /** More numbers than there are values: two are equal. */
  lemma {:induction false} Collision(f: seq<nat>, s: set<nat>) returns (a: nat, b: nat)
    requires |f| > |s| && forall i :: 0 <= i < |f| ==> f[i] in s
    ensures a < b < |f| && f[a] == f[b]
  {
    var x := f[0];
    if i :| 1 <= i < |f| && f[i] == x {
      return 0, i;
    }
    var a', b' := Collision(f[1..], s - {x});
    return a' + 1, b' + 1;
  }

  /** A slot of the packet of a completion record in use. */
  lemma InSlot(j: Job, trace: Traces, answer: Answers, v: View, m: nat) returns (k: nat)
    requires Inv(j, trace, answer, v) && v.tr == 0 && m < j.n && v.cmplts[m].count > 0
    ensures k < j.n && v.slots[k].Busy? && v.slots[k].packet == v.cmplts[m].packet
  {
    var p := v.cmplts[m].packet;
    assert CmpltOk(j, answer, v, v.cmplts[m]);
    Missing(v.done[p], |j.tries|);
    var t: nat :| t < |j.tries| && t !in v.done[p];
    assert Started(v, p, t);
    k :| Holds(v.slots, k, p, t);
  }

  ghost predicate Occupied(slots: seq<Slot>, cmplts: seq<Completion>, f: seq<nat>) {
    |f| <= |cmplts| && forall i :: 0 <= i < |f| ==>
      f[i] < |slots| && slots[f[i]].Busy? && slots[f[i]].packet == cmplts[i].packet
  }

  lemma AllInSlots(j: Job, trace: Traces, answer: Answers, v: View) returns (f: seq<nat>)
    requires Inv(j, trace, answer, v) && v.tr == 0 && forall m :: 0 <= m < j.n ==> v.cmplts[m].count > 0
    ensures |f| == j.n && Occupied(v.slots, v.cmplts, f)
  {
    f := [];
    while |f| < j.n
      invariant |f| <= j.n && Occupied(v.slots, v.cmplts, f)
    {
      var k := InSlot(j, trace, answer, v, |f|);
      f := f + [k];
    }
  }

  lemma SomePacketTwice(slots: seq<Slot>, cmplts: seq<Completion>, f: seq<nat>, hole: nat)
    requires |slots| == |cmplts| == |f| && Occupied(slots, cmplts, f) && hole < |slots| && !slots[hole].Busy?
    ensures exists a, b :: 0 <= a < b < |cmplts| && cmplts[a].packet == cmplts[b].packet
  {
    var a, b := Collision(f, Numbers(|f|) - {hole});
  }

  /** When a packet is about to start, some completion record is not in use. */
  lemma FreeCompletion(j: Job, trace: Traces, answer: Answers, v: View, hole: nat)
    requires Inv(j, trace, answer, v) && v.tr == 0 && hole < j.n && !v.slots[hole].Busy?
    ensures exists m :: 0 <= m < j.n && v.cmplts[m].count == 0
  {
    if forall m :: 0 <= m < j.n ==> v.cmplts[m].count > 0 {
      var f := AllInSlots(j, trace, answer, v);
      SomePacketTwice(v.slots, v.cmplts, f, hole);
    }
  }
}
