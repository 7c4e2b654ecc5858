/**
  The counting pass: decides the encoding of every reachable node once and sums
  up the storage each kind needs.
*/
module AclCount {
  import opened Basics
  import opened AclTrie
  import opened AclWord
  import opened AclLayout

  datatype Counts = Counts(match_: nat, single: nat, quadVectors: nat, dfaGr64: nat)

  ghost predicate CountsOk(info: map<nat, Info>, counts: Counts, n: nat) {
    && counts.match_ == Total(info, MATCH, n)
    && counts.single == Total(info, SINGLE, n)
    && counts.quadVectors == Total(info, QRANGE, n)
    && counts.dfaGr64 == Total(info, DFA, n)
  }

  ghost predicate Known(nodes: seq<Node>, info: map<nat, Info>) {
    forall i :: i in info ==> i < |nodes| && InfoOk(nodes[i], info[i])
  }

  ghost predicate ChildrenIn(nd: Node, ids: set<nat>) {
    forall k :: 0 <= k < |nd.ptrs| && nd.ptrs[k].child.Some? ==> nd.ptrs[k].child.value in ids
  }

  /** Every counted node has its children counted, except those whose count is in progress. */
  ghost predicate Closed(nodes: seq<Node>, info: map<nat, Info>, pending: set<nat>) {
    forall i :: i in info && i < |nodes| && i !in pending ==> ChildrenIn(nodes[i], info.Keys)
  }

  /** With a node, `ids` has its children. */
  ghost predicate Whole(nodes: seq<Node>, ids: set<nat>) {
    forall i :: i in ids && i < |nodes| ==> ChildrenIn(nodes[i], ids)
  }

  /** Nothing was added to `a` but what `id` leads to: every whole set with `a` and `id` has all of `b`. */
  ghost predicate Least(nodes: seq<Node>, a: set<nat>, b: set<nat>, id: nat) {
    forall all: set<nat> :: Whole(nodes, all) && a <= all && id in all ==> b <= all
  }

  lemma LeastStep(nodes: seq<Node>, a: set<nat>, b: set<nat>, c: set<nat>, id: nat, k: nat)
    requires id < |nodes| && k < |nodes[id].ptrs| && nodes[id].ptrs[k].child.Some?
    requires Least(nodes, a, b, id) && Least(nodes, b, c, nodes[id].ptrs[k].child.value)
    ensures Least(nodes, a, c, id)
  {
    forall all: set<nat> | Whole(nodes, all) && a <= all && id in all ensures c <= all {
      assert ChildrenIn(nodes[id], all);
      assert b <= all;
    }
  }

  lemma LeastSelf(nodes: seq<Node>, a: set<nat>, id: nat)
    ensures Least(nodes, a, a, id) && Least(nodes, a, a + {id}, id)
  {
  }

  ghost predicate Below(nodes: seq<Node>, ids: set<nat>, level: nat) {
    forall p :: p in ids ==> p < |nodes| && nodes[p].level < level
  }

  /** What is new lies at or under node `id`. */
  ghost predicate NewUnder(nodes: seq<Node>, old_: map<nat, Info>, new_: map<nat, Info>, id: nat)
    requires id < |nodes|
  {
    && Within(old_, new_)
    && forall i :: i in new_ && i !in old_ ==> i == id || (i < |nodes| && nodes[id].level < nodes[i].level)
  }

  lemma NewUnderStep(nodes: seq<Node>, a: map<nat, Info>, b: map<nat, Info>, c: map<nat, Info>, id: nat, child: nat)
    requires id < |nodes| && child < |nodes| && nodes[id].level < nodes[child].level
    requires NewUnder(nodes, a, b, id) && NewUnder(nodes, b, c, child)
    ensures NewUnder(nodes, a, c, id) && Within(b, c)
  {
  }

  /** What was added for node `id` has the sizes that the nodes take. */
  ghost predicate NewSizes(nodes: seq<Node>, old_: map<nat, Info>, new_: map<nat, Info>, id: nat, force: bool) {
    forall i :: i in new_ && i !in old_ && i < |nodes| ==> SizeIs(nodes[i], i == id && force, new_[i])
  }

  lemma NewSizesStep(nodes: seq<Node>, a: map<nat, Info>, b: map<nat, Info>, c: map<nat, Info>, id: nat, force: bool,
      child: nat)
    requires id < |nodes| && child < |nodes| && nodes[id].level < nodes[child].level && id in b
    requires NewSizes(nodes, a, b, id, force) && NewSizes(nodes, b, c, child, false) && Within(b, c)
    ensures NewSizes(nodes, a, c, id, force)
  {
  }

  lemma NewSizesSelf(nodes: seq<Node>, a: map<nat, Info>, b: map<nat, Info>, id: nat, force: bool)
    requires b == a || (id < |nodes| && id in b && id !in a && b == a[id := b[id]] && SizeIs(nodes[id], force, b[id]))
    ensures NewSizes(nodes, a, b, id, force)
  {
  }

  lemma NewUnderSelf(nodes: seq<Node>, a: map<nat, Info>, b: map<nat, Info>, id: nat)
    requires id < |nodes| && (b == a || (id in b && id !in a && b == a[id := b[id]]))
    ensures NewUnder(nodes, a, b, id)
  {
  }

  /** The first `n` children are counted. */
  ghost predicate FirstIn(nd: Node, n: nat, ids: set<nat>) {
    n <= |nd.ptrs| && forall k :: 0 <= k < n && nd.ptrs[k].child.Some? ==> nd.ptrs[k].child.value in ids
  }

  lemma CountsStep(info: map<nat, Info>, counts: Counts, counts': Counts, n: nat, id: nat, v: Info)
    requires CountsOk(info, counts, n) && id !in info && id < n && IsKind(v.kind)
    requires counts' == (
      if v.kind == MATCH then counts.(match_ := counts.match_ + v.fanout)
      else if v.kind == SINGLE then counts.(single := counts.single + v.fanout)
      else if v.kind == QRANGE then counts.(quadVectors := counts.quadVectors + v.fanout)
      else counts.(dfaGr64 := counts.dfaGr64 + v.fanout))
    ensures CountsOk(info[id := v], counts', n)
  {
    TotalAdd(info, id, v, MATCH, n);
    TotalAdd(info, id, v, SINGLE, n);
    TotalAdd(info, id, v, QRANGE, n);
    TotalAdd(info, id, v, DFA, n);
  }

  lemma ClosedStep(nodes: seq<Node>, info: map<nat, Info>, pending: set<nat>, id: nat, v: Info)
    requires Closed(nodes, info, pending)
    ensures Closed(nodes, info[id := v], pending + {id})
  {
    forall i | i in info[id := v] && i < |nodes| && i !in pending + {id}
      ensures ChildrenIn(nodes[i], info[id := v].Keys)
    {
      assert ChildrenIn(nodes[i], info.Keys);
    }
  }

  lemma NowClosed(nodes: seq<Node>, info: map<nat, Info>, pending: set<nat>, id: nat)
    requires id < |nodes| && Closed(nodes, info, pending + {id}) && FirstIn(nodes[id], |nodes[id].ptrs|, info.Keys)
    ensures Closed(nodes, info, pending)
  {
  }

  class Counter {
    const nodes: seq<Node>
    const categories: nat
    var info: map<nat, Info>
    var counts: Counts

    constructor (nodes: seq<Node>, categories: nat)
      ensures this.nodes == nodes && this.categories == categories
      ensures info == map[] && Counted({})
    {
      this.nodes := nodes;
      this.categories := categories;
      info := map[];
      counts := Counts(0, 0, 0, 0);
      new;
      NothingCounted(|nodes|);
    }

    static lemma {:induction false} NothingCounted(n: nat)
      ensures CountsOk(map[], Counts(0, 0, 0, 0), n)
    {
      if n > 0 {
        NothingCounted(n - 1);
      }
    }

    ghost predicate Counted(pending: set<nat>)
      reads this
    {
      Known(nodes, info) && Closed(nodes, info, pending) && CountsOk(info, counts, |nodes|)
    }

    method CountOne(id: nat, force: bool, ghost pending: set<nat>)
      requires Counted(pending) && id < |nodes| && id !in info && (IsLeaf(nodes[id]) || NodeOk(nodes[id]))
      modifies this
      ensures Counted(pending + {id})
      ensures id in info && info == old(info)[id := info[id]] && SizeIs(nodes[id], force, info[id])
      ensures force && !IsLeaf(nodes[id]) ==> info[id] == Info(DFA, 4, [0, 1, 2, 3])
    {
      var v := Classify(nodes[id], force);
      ghost var was := counts;
      if v.kind == MATCH {
        counts := counts.(match_ := counts.match_ + 1);
      } else if v.kind == SINGLE {
        counts := counts.(single := counts.single + 1);
      } else if v.kind == QRANGE {
        counts := counts.(quadVectors := counts.quadVectors + v.fanout);
      } else {
        counts := counts.(dfaGr64 := counts.dfaGr64 + v.fanout);
      }
      SingleIsOne(nodes[id], v);
      CountsStep(info, was, counts, |nodes|, id, v);
      ClosedStep(nodes, info, pending, id, v);
      info := info[id := v];
    }

    /** `acl_count_trie_types`. */
    method CountNode(id: nat, force: bool, ghost ls: seq<nat>, ghost pending: set<nat>)
      requires Wf(nodes, id, ls, categories) && Counted(pending) && Below(nodes, pending, nodes[id].level)
      modifies this
      ensures Counted(pending) && id in info
      ensures NewUnder(nodes, old(info), info, id)
      ensures Least(nodes, old(info).Keys, info.Keys, id) && NewSizes(nodes, old(info), info, id, force)
      ensures force && id !in old(info) && |ls| > 1 ==> info[id] == Info(DFA, 4, [0, 1, 2, 3])
      decreases |ls|
    {
      hide Least, NewUnder, NewSizes, CountsOk, Known, Closed, SizeIs;
      LeastSelf(nodes, info.Keys, id);
      if id in info {
        NewUnderSelf(nodes, info, info, id);
        NewSizesSelf(nodes, info, info, id, force);
        return;
      }
      CountOne(id, force, pending);
      ghost var mine := info[id];
      NewUnderSelf(nodes, old(info), info, id);
      NewSizesSelf(nodes, old(info), info, id, force);
      assert info.Keys == old(info).Keys + {id};
      for n := 0 to |nodes[id].ptrs|
        invariant Counted(pending + {id}) && id in info && info[id] == mine
        invariant NewUnder(nodes, old(info), info, id) && NewSizes(nodes, old(info), info, id, force)
        invariant Least(nodes, old(info).Keys, info.Keys, id)
        invariant FirstIn(nodes[id], n, info.Keys)
      {
        if nodes[id].ptrs[n].child.Some? {
          ghost var before, child := info, nodes[id].ptrs[n].child.value;
          CountNode(nodes[id].ptrs[n].child.value, false, ls[1..], pending + {id});
          NewUnderStep(nodes, old(info), before, info, id, child);
          NewSizesStep(nodes, old(info), before, info, id, force, child);
          LeastStep(nodes, old(info).Keys, before.Keys, info.Keys, id, n);
        }
      }
      NowClosed(nodes, info, pending, id);
    }
  }

  lemma SingleIsOne(nd: Node, v: Info)
    requires InfoOk(nd, v) && (v.kind == SINGLE ==> NodeOk(nd))
    ensures v.kind == MATCH || v.kind == SINGLE ==> v.fanout == 1
  {
    if v.kind == SINGLE {
      SlotsSeparate(nd.ptrs, nd.values);
      var slots := Slots(|nd.ptrs|);
      var dfa := DfaOf(nd.ptrs, slots);
      assert Fits(v, dfa);
    }
  }
}
