/**
  The classifier from end to end: rules are built into tries, tries into the
  run-time table, and the search engine returns for every packet and category a
  matching rule of highest priority.
*/
module AclClassify {
  import opened Basics
  import opened AclTrie
  import opened AclBuilder
  import opened AclMiniTrie
  import opened AclIndex
  import opened AclWord
  import opened AclGen
  import opened AclTable
  import opened AclRun
  import opened AclEngine

  // ------------------------------------------------------- from one trie to its traversal

  /** The bytes of the key that data index `i` contributes. */
  lemma {:induction false} KeyPart(di: seq<nat>, pkt: seq<byte>, i: nat)
    requires i < |di| && forall n :: 0 <= n < |di| ==> di[n] + 4 <= |pkt|
    ensures |RunKey(di, pkt, false)| == 4 * |di|
    ensures RunKey(di, pkt, false)[4 * i..4 * i + 4] == pkt[di[i]..di[i] + 4]
  {
    var head, tail := pkt[di[0]..di[0] + 4], RunKey(di[1..], pkt, false);
    if |di| == 1 {
      assert tail == [];
    } else if i == 0 {
      KeyPart(di[1..], pkt, 0);
    } else {
      KeyPart(di[1..], pkt, i - 1);
      SliceAfter(head, tail, 4 * (i - 1));
    }
  }

  lemma SliceAfter(a: seq<byte>, b: seq<byte>, k: nat)
    requires k + 4 <= |b|
    ensures (a + b)[|a| + k..|a| + k + 4] == b[k..k + 4]
  {
  }

  /** All that the engine reads for one trie. */
  ghost predicate Reads(di: seq<nat>, pkt: seq<byte>) {
    di != [] && di[0] < |pkt| && forall i :: 1 <= i < |di| ==> InPacket(pkt, di[i])
  }

  lemma KeyParts(di: seq<nat>, pkt: seq<byte>, i: nat)
    requires Reads(di, pkt) && 1 <= i < |di|
    ensures var key := RunKey(di, pkt, true);
      |key| == 1 + 4 * (|di| - 1) && key[1 + 4 * (i - 1)..1 + 4 * i] == Four(pkt, di[i])
  {
    var head, tail := pkt[di[0]..di[0] + 1], RunKey(di[1..], pkt, false);
    assert forall n :: 0 <= n < |di[1..]| ==> di[1..][n] == di[n + 1];
    KeyPart(di[1..], pkt, i - 1);
    SliceAfter(head, tail, 4 * (i - 1));
  }

  lemma KeySize(di: seq<nat>, pkt: seq<byte>)
    requires Reads(di, pkt)
    ensures |RunKey(di, pkt, true)| == 1 + 4 * (|di| - 1) && RunKey(di, pkt, true)[0] == pkt[di[0]]
  {
    if |di| > 1 {
      KeyParts(di, pkt, 1);
    } else {
      assert RunKey(di[1..], pkt, false) == [];
    }
  }

  /** The words at which the engine looks for a match. */
  ghost function TraceOf(nodes: seq<Node>, index: map<nat, Word>, id: nat, key: seq<byte>, n: nat): (r: seq<Word>)
    requires |key| == 1 + 4 * (n - 1) && n > 0
    ensures |r| == n && forall i :: 0 <= i < n ==> r[i] == PathWord(nodes, index, id, key[..1 + 4 * i])
  {
    seq(n, (i: nat) requires i < n => PathWord(nodes, index, id, key[..1 + 4 * i]))
  }

  /** Four more bytes from a word on the path. */
  lemma FourMore(rt: Runtime, nodes: seq<Node>, index: map<nat, Word>, id: nat, s: seq<byte>, t: seq<byte>,
      ls: seq<nat>, categories: nat)
    requires Serves(rt, nodes, index) && Wf(nodes, id, ls, categories) && id in index && |s| + |t| < |ls|
    requires PathWord(nodes, index, id, s).Type() < MATCH
    ensures var w := PathWord(nodes, index, id, s);
      Safe(rt.table, w, t) && Run(rt.table, w, t) == PathWord(nodes, index, id, s + t)
  {
    WordParts(0, MATCH, 0);
    WalkEnds(rt, nodes, index, id, s, ls, categories);
    WalkSplit(nodes, id, s, t);
    var e := Walk(nodes, id, s);
    RunFollows(rt, nodes, index, e.value, t, ls[|s|..], categories);
  }

  lemma FirstByte(rt: Runtime, nodes: seq<Node>, index: map<nat, Word>, id: nat, root: nat, s: seq<byte>)
    requires RootServed(rt, nodes, index, root, id) && |s| == 1
    requires ChildrenIndexed(nodes, index)
    ensures root + s[0] < |rt.table| && rt.table[root + s[0]] == PathWord(nodes, index, id, s)
  {
    assert WordServed(rt, nodes[id], index, root, s[0]);
    assert s[1..] == [];
    var e := Edge(nodes[id].ptrs, s[0]);
    var w := EdgeWord(nodes[id], index, s[0]);
    assert e.Some? ==> Walk(nodes, e.value, []) == if e.value < |nodes| then Some(e.value) else None;
  }

  ghost predicate ChildrenIndexed(nodes: seq<Node>, index: map<nat, Word>) {
    forall i :: i in index ==> i < |nodes|
  }

  ghost predicate Matching(rt: Runtime, nodes: seq<Node>, index: map<nat, Word>, id: nat, ls: seq<nat>,
      categories: nat, ref: TrieRef, pkt: seq<byte>) {
    && Serves(rt, nodes, index) && RootServed(rt, nodes, index, ref.root, id) && Wf(nodes, id, ls, categories)
    && Reads(ref.dataIndex, pkt) && |ref.dataIndex| <= MAX_FIELDS && |ls| == 2 + 4 * (|ref.dataIndex| - 1)
  }

  lemma TraceStep(rt: Runtime, nodes: seq<Node>, index: map<nat, Word>, id: nat, ls: seq<nat>, categories: nat,
      ref: TrieRef, pkt: seq<byte>, key: seq<byte>, i: nat)
    requires Matching(rt, nodes, index, id, ls, categories, ref, pkt) && key == RunKey(ref.dataIndex, pkt, true)
    requires 1 <= i < |ref.dataIndex| && |key| == 1 + 4 * (|ref.dataIndex| - 1)
    requires PathWord(nodes, index, id, key[..1 + 4 * (i - 1)]).Type() < MATCH
    ensures var w, input := PathWord(nodes, index, id, key[..1 + 4 * (i - 1)]), Four(pkt, ref.dataIndex[i]);
      Safe(rt.table, w, input) && Run(rt.table, w, input) == PathWord(nodes, index, id, key[..1 + 4 * i])
  {
    hide PathWord, Serves, Wf, Run, Safe;
    KeyParts(ref.dataIndex, pkt, i);
    var k := 1 + 4 * (i - 1);
    FourMore(rt, nodes, index, id, key[..k], Four(pkt, ref.dataIndex[i]), ls, categories);
    assert key[..k] + Four(pkt, ref.dataIndex[i]) == key[..1 + 4 * i];
  }

  /** The engine's traversal of a trie ends with what the trie finds for the packet's key. */
  lemma TraceIsTraced(j: Job, rt: Runtime, nodes: seq<Node>, index: map<nat, Word>, id: nat, ls: seq<nat>,
      categories: nat, ref: TrieRef, pkt: seq<byte>)
    requires Matching(rt, nodes, index, id, ls, categories, ref, pkt) && j.table == rt.table && j.matches == rt.matches
    ensures var key := RunKey(ref.dataIndex, pkt, true);
      && |key| == 1 + 4 * (|ref.dataIndex| - 1)
      && Traced(j, ref, pkt, Answer(nodes, id, key), TraceOf(nodes, index, id, key, |ref.dataIndex|))
  {
    hide PathWord, Serves, Wf;
    var di := ref.dataIndex;
    var key := RunKey(di, pkt, true);
    KeySize(di, pkt);
    var trace := TraceOf(nodes, index, id, key, |di|);
    AllIndexed(rt, nodes, index);
    FirstByte(rt, nodes, index, id, ref.root, key[..1]);
    forall i | 1 <= i < |di| && trace[i - 1].Type() < MATCH
      ensures Safe(j.table, trace[i - 1], Four(pkt, di[i])) && trace[i] == Run(j.table, trace[i - 1], Four(pkt, di[i]))
    {
      TraceStep(rt, nodes, index, id, ls, categories, ref, pkt, key, i);
    }
    forall i | 0 <= i < |di|
      ensures i == |di| - 1 ==> trace[i].Type() >= MATCH
      ensures trace[i].Type() >= MATCH ==>
        trace[i].Addr() < |j.matches| && j.matches[trace[i].Addr()] == Answer(nodes, id, key)
    {
      Outcome(rt, nodes, index, id, key, 1 + 4 * i, ls, categories);
    }
  }

  lemma AllIndexed(rt: Runtime, nodes: seq<Node>, index: map<nat, Word>)
    requires Serves(rt, nodes, index)
    ensures ChildrenIndexed(nodes, index)
  {
  }
}
