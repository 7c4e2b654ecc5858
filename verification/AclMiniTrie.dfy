/**
  Mini-tries for single fields and their chaining into the trie of one rule:
  `acl_gen_mask_trie`, `acl_gen_range_trie` and the field loop of `build_trie`.
*/
module AclMiniTrie {
  import opened Basics
  import opened AclTrie
  import opened AclMerge
  import opened AclField
  import opened AclBuilder

  /** Like a well-formed trie, but all paths end in the one node `end`. */
  ghost predicate Tower(nodes: seq<Node>, id: nat, end: nat, ls: seq<nat>)
    decreases |ls|
  {
    && |ls| > 0
    && id < |nodes|
    && nodes[id].level == ls[0]
    && if |ls| == 1 then id == end
       else
         && NodeOk(nodes[id])
         && nodes[id].ptrs != []
         && ls[0] < ls[1]
         && forall k :: 0 <= k < |nodes[id].ptrs| ==> Tower(nodes, nodes[id].ptrs[k].child.value, end, ls[1..])
  }

  function Last(ls: seq<nat>): nat
    requires |ls| > 0
  {
    ls[|ls| - 1]
  }

  lemma {:induction false} TowerEnd(nodes: seq<Node>, id: nat, end: nat, ls: seq<nat>)
    requires Tower(nodes, id, end, ls)
    ensures end < |nodes| && nodes[end].level == Last(ls) && ls[0] <= Last(ls)
    ensures |ls| > 1 ==> ls[0] < Last(ls)
    decreases |ls|
  {
    if |ls| > 1 {
      TowerEnd(nodes, nodes[id].ptrs[0].child.value, end, ls[1..]);
    }
  }

  lemma EdgeOfTower(nodes: seq<Node>, id: nat, end: nat, ls: seq<nat>, x: byte)
    requires Tower(nodes, id, end, ls) && |ls| > 1
    ensures Edge(nodes[id].ptrs, x).Some? ==> Tower(nodes, Edge(nodes[id].ptrs, x).value, end, ls[1..])
  {
  }

  lemma {:induction false} TowerWalk(nodes: seq<Node>, id: nat, end: nat, ls: seq<nat>, s: seq<byte>)
    requires Tower(nodes, id, end, ls) && |s| == |ls| - 1
    ensures Walk(nodes, id, s) == Some(end) || Walk(nodes, id, s) == None
    decreases |ls|
  {
    if |ls| > 1 {
      EdgeOfTower(nodes, id, end, ls, s[0]);
      var e := Edge(nodes[id].ptrs, s[0]);
      if e.Some? { TowerWalk(nodes, e.value, end, ls[1..], s[1..]); }
    }
  }

  /** A tower does not see changes above its root, nor at or below the level of its end. */
  lemma {:induction false} TowerFrame(old_: seq<Node>, new_: seq<Node>, id: nat, end: nat, ls: seq<nat>)
    requires Tower(old_, id, end, ls)
    requires |old_| <= |new_|
    requires forall i :: 0 <= i < |old_| && ls[0] <= old_[i].level < Last(ls) ==> new_[i] == old_[i]
    requires end < |old_| ==> new_[end].level == old_[end].level
    ensures Tower(new_, id, end, ls)
    ensures forall s: seq<byte> :: |s| == |ls| - 1 ==> Walk(new_, id, s) == Walk(old_, id, s)
    decreases |ls|
  {
    TowerEnd(old_, id, end, ls);
    if |ls| > 1 {
      var ps := old_[id].ptrs;
      forall k | 0 <= k < |ps|
        ensures Tower(new_, ps[k].child.value, end, ls[1..])
        ensures forall s: seq<byte> :: |s| == |ls| - 2 ==>
          Walk(new_, ps[k].child.value, s) == Walk(old_, ps[k].child.value, s)
      {
        TowerFrame(old_, new_, ps[k].child.value, end, ls[1..]);
      }
      forall s: seq<byte> | |s| == |ls| - 1
        ensures Walk(new_, id, s) == Walk(old_, id, s)
      {
        var k := SlotOf(ps, s[0]);
        if k < |ps| {
          assert Walk(new_, ps[k].child.value, s[1..]) == Walk(old_, ps[k].child.value, s[1..]);
        }
      }
    }
  }

  lemma {:induction false} WalkSplit(nodes: seq<Node>, id: nat, s: seq<byte>, t: seq<byte>)
    ensures var r := Walk(nodes, id, s);
      Walk(nodes, id, s + t) == if r.Some? then Walk(nodes, r.value, t) else None
    decreases |s|
  {
    if s == [] {
      assert s + t == t;
    } else if id < |nodes| {
      var e := Edge(nodes[id].ptrs, s[0]);
      assert (s + t)[1..] == s[1..] + t && (s + t)[0] == s[0];
      if e.Some? { WalkSplit(nodes, e.value, s[1..], t); }
    }
  }

  /** Putting one tower on the end of another. */
  lemma {:induction false} TowerJoin(nodes: seq<Node>, id: nat, mid: nat, end: nat, ls: seq<nat>, ls': seq<nat>)
    requires Tower(nodes, id, mid, ls) && |ls'| > 0 && Tower(nodes, mid, end, [Last(ls)] + ls')
    ensures Tower(nodes, id, end, ls + ls')
    decreases |ls|
  {
    if |ls| == 1 {
      assert ls + ls' == [Last(ls)] + ls';
    } else {
      var ps := nodes[id].ptrs;
      assert (ls + ls')[1..] == ls[1..] + ls';
      forall k | 0 <= k < |ps| ensures Tower(nodes, ps[k].child.value, end, (ls + ls')[1..]) {
        TowerJoin(nodes, ps[k].child.value, mid, end, ls[1..], ls');
      }
    }
  }

  /** A tower whose open end `mid` has been extended by another tower. */
  ghost predicate Extended(nodes: seq<Node>, new_: seq<Node>, id: nat, mid: nat, end: nat, ls: seq<nat>,
      ls': seq<nat>) {
    && |ls| > 0 && |ls'| > 0
    && Tower(nodes, id, mid, ls)
    && |nodes| <= |new_|
    && (forall i :: 0 <= i < |nodes| && nodes[i].level < Last(ls) ==> new_[i] == nodes[i])
    && Tower(new_, mid, end, [Last(ls)] + ls')
  }

  lemma TowerTop(nodes: seq<Node>, id: nat, end: nat, ls: seq<nat>)
    requires Tower(nodes, id, end, ls)
    ensures id < |nodes| && |ls| > 0 && nodes[id].level == ls[0]
  {
  }

  lemma ExtendedTower(nodes: seq<Node>, new_: seq<Node>, id: nat, mid: nat, end: nat, ls: seq<nat>, ls': seq<nat>)
    requires Extended(nodes, new_, id, mid, end, ls, ls')
    ensures Tower(new_, id, end, ls + ls')
  {
    TowerEnd(nodes, id, mid, ls);
    TowerFrame(nodes, new_, id, mid, ls);
    TowerJoin(new_, id, mid, end, ls, ls');
  }

  lemma ExtendedWalk(nodes: seq<Node>, new_: seq<Node>, id: nat, mid: nat, end: nat, ls: seq<nat>, ls': seq<nat>,
      s: seq<byte>, t: seq<byte>)
    requires Extended(nodes, new_, id, mid, end, ls, ls') && |s| == |ls| - 1
    ensures Walk(new_, id, s + t) == if Walk(nodes, id, s) == Some(mid) then Walk(new_, mid, t) else None
  {
    hide Tower, Walk;
    TowerTop(new_, mid, end, [Last(ls)] + ls');
    TowerEnd(nodes, id, mid, ls);
    TowerFrame(nodes, new_, id, mid, ls);
    TowerWalk(nodes, id, mid, ls, s);
    WalkSplit(new_, id, s, t);
  }

  /** A node with one outgoing transition. */
  lemma SingleStep(nodes: seq<Node>, id: nat, next: nat, bits: set<byte>)
    requires id < |nodes| && next < |nodes| && nodes[id].level < nodes[next].level
    requires nodes[id].ptrs == [Ptr(bits, Some(next))] && nodes[id].values == bits && nodes[id].mrt.None? && bits != {}
    ensures Tower(nodes, id, next, [nodes[id].level, nodes[next].level])
    ensures forall x: byte :: Walk(nodes, id, [x]) == if x in bits then Some(next) else None
  {
    var ps := nodes[id].ptrs;
    forall x: byte ensures SlotOf(ps, x) == if x in bits then 0 else 1 { }
    assert [nodes[id].level, nodes[next].level][1..] == [nodes[next].level];
    forall x: byte ensures Walk(nodes, id, [x]) == if x in bits then Some(next) else None {
      assert [x][1..] == [];
    }
  }

  ghost predicate Blank(nodes: seq<Node>, id: nat) {
    id < |nodes| && nodes[id].ptrs == [] && nodes[id].values == {} && nodes[id].mrt.None?
  }

  function Levels(level: nat, n: nat): (ls: seq<nat>)
    ensures |ls| == n
  {
    seq(n, i requires 0 <= i < n => level + i)
  }

  /** The open end `end` of a tower got one transition, to `next`. */
  ghost predicate OneMore(nodes: seq<Node>, new_: seq<Node>, id: nat, end: nat, next: nat, ls: seq<nat>,
      bits: set<byte>) {
    && Tower(nodes, id, end, ls) && |nodes| <= |new_|
    && (forall i :: 0 <= i < |nodes| && i != end ==> new_[i] == nodes[i])
    && end < |new_| && next < |new_| && new_[next].level > Last(ls) && bits != {}
    && new_[end] == Node(Last(ls), [Ptr(bits, Some(next))], bits, None)
  }

  lemma OneMoreTower(nodes: seq<Node>, new_: seq<Node>, id: nat, end: nat, next: nat, ls: seq<nat>, bits: set<byte>)
    requires OneMore(nodes, new_, id, end, next, ls, bits)
    ensures Extended(nodes, new_, id, end, next, ls, [new_[next].level])
    ensures Tower(new_, id, next, ls + [new_[next].level])
  {
    TowerEnd(nodes, id, end, ls);
    SingleStep(new_, end, next, bits);
    assert [Last(ls)] + [new_[next].level] == [new_[end].level, new_[next].level];
    ExtendedTower(nodes, new_, id, end, next, ls, [new_[next].level]);
  }

  lemma OneMoreWalk(nodes: seq<Node>, new_: seq<Node>, id: nat, end: nat, next: nat, ls: seq<nat>, bits: set<byte>,
      s: seq<byte>, x: byte)
    requires OneMore(nodes, new_, id, end, next, ls, bits) && |s| == |ls| - 1
    ensures Walk(new_, id, s + [x]) == Some(next) <==> Walk(nodes, id, s) == Some(end) && x in bits
  {
    OneMoreTower(nodes, new_, id, end, next, ls, bits);
    SingleStep(new_, end, next, bits);
    ExtendedWalk(nodes, new_, id, end, next, ls, [new_[next].level], s, [x]);
  }

  // ---------------------------------------------------------------------- mask fields

  lemma {:induction false} MaskSnoc(s: seq<byte>, x: byte, val: seq<byte>, msk: seq<byte>)
    requires |val| == |msk| == |s| + 1
    ensures MaskBytesMatch(s + [x], val, msk) <==>
      MaskBytesMatch(s, val[1..], msk[1..]) && BitAnd(x, msk[0]) == BitAnd(val[0], msk[0])
  {
    var n := |s|;
    if s == [] {
      assert (s + [x])[1..] == [];
    } else {
      MaskSnoc(s[1..], x, val[..n], msk[..n]);
      assert (s + [x])[1..] == s[1..] + [x];
      assert val[..n][1..] == val[1..][..n - 1] && msk[..n][1..] == msk[1..][..n - 1];
    }
  }

  /** `acl_gen_mask`: all bytes that agree with `value` under `mask`. */
  method GenMask(value: byte, mask: byte) returns (bits: set<byte>)
    ensures forall x: byte :: x in bits <==> BitAnd(x, mask) == value
  {
    bits := {};
    for n := 0 to 256
      invariant forall x: byte :: x in bits <==> x < n && BitAnd(x, mask) == value
    {
      if BitAnd(n, mask) == value {
        bits := bits + {n};
      }
    }
  }

  /** The mini-trie `root`..`end` accepts exactly the inputs that pass the mask test. */
  ghost predicate MaskTrie(nodes: seq<Node>, root: nat, end: nat, ls: seq<nat>, val: seq<byte>, msk: seq<byte>)
    requires |val| == |msk| == |ls| - 1
  {
    && Tower(nodes, root, end, ls)
    && forall s: seq<byte> :: |s| == |val| ==> (Walk(nodes, root, s) == Some(end) <==> MaskBytesMatch(s, val, msk))
  }

  /** Allocate a node and link the open end of a tower to it. */
  method NextNode(bld: Builder, end: nat, level: nat, bits: set<byte>, ghost id: nat,
      ghost ls: seq<nat>) returns (node: nat)
    requires Tower(bld.nodes, id, end, ls) && Blank(bld.nodes, end) && Last(ls) < level && bits != {}
    modifies bld
    ensures node == |old(bld.nodes)| && |bld.nodes| == node + 1
    ensures forall i :: 0 <= i < node && i != end ==> bld.nodes[i] == old(bld.nodes)[i]
    ensures Blank(bld.nodes, node) && bld.nodes[node].level == level
    ensures OneMore(old(bld.nodes), bld.nodes, id, end, node, ls, bits)
  {
    TowerEnd(bld.nodes, id, end, ls);
    node := bld.AllocNode(level);
    bld.AddPtr(end, 0, node, bits);
  }

  lemma LevelsSnoc(level: nat, n: nat)
    ensures Levels(level, n) + [level + n] == Levels(level, n + 1)
    ensures n > 0 ==> Last(Levels(level, n)) == level + n - 1
  {
  }

  /** One step of `acl_gen_mask_trie`: a node for the next byte of the value. */
  method MaskNode(bld: Builder, end: nat, level: nat, val: seq<byte>, msk: seq<byte>, ghost root: nat,
      ghost ls: seq<nat>) returns (node: nat)
    requires |val| == |msk| == |ls| > 0 && Last(ls) < level
    requires MaskTrie(bld.nodes, root, end, ls, val[1..], msk[1..]) && Blank(bld.nodes, end)
    modifies bld
    ensures node == |old(bld.nodes)| && |bld.nodes| == node + 1
    ensures forall i :: 0 <= i < node && i != end ==> bld.nodes[i] == old(bld.nodes)[i]
    ensures Blank(bld.nodes, node)
    ensures MaskTrie(bld.nodes, root, node, ls + [level], val, msk)
  {
    ghost var before := bld.nodes;
    var bits := GenMask(BitAnd(val[0], msk[0]), msk[0]);
    assert val[0] in bits;
    node := NextNode(bld, end, level, bits, root, ls);
    MaskTrieGrown(before, bld.nodes, root, end, node, ls, val, msk, bits);
  }

  method GenMaskTrie(bld: Builder, val: seq<byte>, msk: seq<byte>, level: nat) returns (root: nat, end: nat)
    requires |val| == |msk|
    modifies bld
    ensures old(bld.nodes) <= bld.nodes
    ensures |old(bld.nodes)| <= root && |old(bld.nodes)| <= end && Blank(bld.nodes, end)
    ensures MaskTrie(bld.nodes, root, end, Levels(level, |val| + 1), val, msk)
  {
    hide MaskTrie, Levels, Tower;
    root := bld.AllocNode(level);
    end := root;
    var n := |val|;
    BlankIsTrie(bld.nodes, root, level, val, msk);
    ghost var before := old(bld.nodes);
    while n > 0
      invariant 0 <= n <= |val|
      invariant before <= bld.nodes && |before| <= root && |before| <= end && Blank(bld.nodes, end)
      invariant MaskTrie(bld.nodes, root, end, Levels(level, |val| - n + 1), val[n..], msk[n..])
    {
      n := n - 1;
      DropFirst(val, n);
      DropFirst(msk, n);
      LevelsSnoc(level, |val| - n);
      ghost var was, at := bld.nodes, end;
      end := MaskNode(bld, end, level + |val| - n, val[n..], msk[n..], root, Levels(level, |val| - n));
      PrefixKept(before, was, bld.nodes, at);
    }
    assert val[0..] == val && msk[0..] == msk;
  }

  lemma DropFirst<T>(s: seq<T>, n: nat)
    requires n < |s|
    ensures s[n..][1..] == s[n + 1..]
  {
  }

  /** A change behind a prefix leaves the prefix. */
  lemma PrefixKept(before: seq<Node>, was: seq<Node>, now: seq<Node>, at: nat)
    requires before <= was && |was| <= |now| && |before| <= at
    requires forall i :: 0 <= i < |was| && i != at ==> now[i] == was[i]
    ensures before <= now
  {
  }

  lemma BlankIsTrie(nodes: seq<Node>, root: nat, level: nat, val: seq<byte>, msk: seq<byte>)
    requires root < |nodes| && nodes[root].level == level && |val| == |msk|
    ensures MaskTrie(nodes, root, root, Levels(level, |val| - |val| + 1), val[|val|..], msk[|val|..])
  {
  }

  lemma MaskTrieGrown(nodes: seq<Node>, new_: seq<Node>, root: nat, end: nat, next: nat, ls: seq<nat>, val: seq<byte>,
      msk: seq<byte>, bits: set<byte>)
    requires |val| == |msk| == |ls| > 0
    requires MaskTrie(nodes, root, end, ls, val[1..], msk[1..])
    requires OneMore(nodes, new_, root, end, next, ls, bits)
    requires forall x: byte :: x in bits <==> BitAnd(x, msk[0]) == BitAnd(val[0], msk[0])
    ensures MaskTrie(new_, root, next, ls + [new_[next].level], val, msk)
  {
    hide Tower, Walk, OneMore, Extended, MaskBytesMatch, BitAnd;
    OneMoreTower(nodes, new_, root, end, next, ls, bits);
    forall s: seq<byte> | |s| == |val|
      ensures Walk(new_, root, s) == Some(next) <==> MaskBytesMatch(s, val, msk)
    {
      var t, x := s[..|s| - 1], s[|s| - 1];
      assert s == t + [x];
      MaskSnoc(t, x, val, msk);
      OneMoreWalk(nodes, new_, root, end, next, ls, bits, t, x);
    }
  }

  // --------------------------------------------------------------------- range fields

  lemma {:induction false} BoxSnoc(s: seq<byte>, x: byte, lo: seq<byte>, hi: seq<byte>)
    requires |lo| == |hi| == |s| + 1
    ensures InBox(s + [x], lo, hi) <==> InBox(s, lo[1..], hi[1..]) && lo[0] <= x <= hi[0]
  {
    var n := |s|;
    if s == [] {
      assert (s + [x])[1..] == [];
    } else {
      BoxSnoc(s[1..], x, lo[..n], hi[..n]);
      assert (s + [x])[1..] == s[1..] + [x];
      assert lo[..n][1..] == lo[1..][..n - 1] && hi[..n][1..] == hi[1..][..n - 1];
    }
  }

  /** The bitset of `acl_add_ptr_range`. */
  method RangeBits(low: byte, high: byte) returns (bits: set<byte>)
    ensures forall x: byte :: x in bits <==> low <= x <= high
  {
    bits := {};
    for n := 0 to 256
      invariant forall x: byte :: x in bits <==> x < n && low <= x <= high
    {
      if low <= n <= high {
        bits := bits + {n};
      }
    }
  }

  /** The chain `root`..`end` accepts exactly the inputs in the box. */
  ghost predicate BoxTrie(nodes: seq<Node>, root: nat, end: nat, ls: seq<nat>, lo: seq<byte>, hi: seq<byte>)
    requires |lo| == |hi| == |ls| - 1
  {
    && Tower(nodes, root, end, ls)
    && forall s: seq<byte> :: |s| == |lo| ==> (Walk(nodes, root, s) == Some(end) <==> InBox(s, lo, hi))
  }

  lemma BoxTrieGrown(nodes: seq<Node>, new_: seq<Node>, root: nat, end: nat, next: nat, ls: seq<nat>, lo: seq<byte>,
      hi: seq<byte>, bits: set<byte>)
    requires |lo| == |hi| == |ls| > 0
    requires BoxTrie(nodes, root, end, ls, lo[1..], hi[1..])
    requires OneMore(nodes, new_, root, end, next, ls, bits)
    requires forall x: byte :: x in bits <==> lo[0] <= x <= hi[0]
    ensures BoxTrie(new_, root, next, ls + [new_[next].level], lo, hi)
  {
    hide Tower, Walk, OneMore, Extended, InBox;
    OneMoreTower(nodes, new_, root, end, next, ls, bits);
    forall s: seq<byte> | |s| == |lo|
      ensures Walk(new_, root, s) == Some(next) <==> InBox(s, lo, hi)
    {
      var t, x := s[..|s| - 1], s[|s| - 1];
      assert s == t + [x];
      BoxSnoc(t, x, lo, hi);
      OneMoreWalk(nodes, new_, root, end, next, ls, bits, t, x);
    }
  }

  /** One step of `acl_gen_range`: a node for the next byte of the bounds. */
  method BoxNode(bld: Builder, end: nat, level: nat, lo: seq<byte>, hi: seq<byte>, ghost root: nat,
      ghost ls: seq<nat>) returns (node: nat)
    requires |lo| == |hi| == |ls| > 0 && Last(ls) < level && lo[0] <= hi[0]
    requires BoxTrie(bld.nodes, root, end, ls, lo[1..], hi[1..]) && Blank(bld.nodes, end)
    modifies bld
    ensures node == |old(bld.nodes)| && |bld.nodes| == node + 1
    ensures forall i :: 0 <= i < node && i != end ==> bld.nodes[i] == old(bld.nodes)[i]
    ensures Blank(bld.nodes, node)
    ensures BoxTrie(bld.nodes, root, node, ls + [level], lo, hi)
  {
    ghost var before := bld.nodes;
    var bits := RangeBits(lo[0], hi[0]);
    assert lo[0] in bits;
    node := NextNode(bld, end, level, bits, root, ls);
    BoxTrieGrown(before, bld.nodes, root, end, node, ls, lo, hi, bits);
  }

  /** The last step of `acl_gen_range`: link the chain to the common end. */
  method BoxEnd(bld: Builder, prev: nat, end: nat, lo: seq<byte>, hi: seq<byte>, ghost root: nat, ghost ls: seq<nat>)
    requires |lo| == |hi| == |ls| > 0 && lo[0] <= hi[0]
    requires end < |bld.nodes| && Last(ls) < bld.nodes[end].level
    requires BoxTrie(bld.nodes, root, prev, ls, lo[1..], hi[1..]) && Blank(bld.nodes, prev)
    modifies bld
    ensures |bld.nodes| == |old(bld.nodes)|
    ensures forall i :: 0 <= i < |bld.nodes| && i != prev ==> bld.nodes[i] == old(bld.nodes)[i]
    ensures BoxTrie(bld.nodes, root, end, ls + [old(bld.nodes)[end].level], lo, hi)
  {
    ghost var before := bld.nodes;
    var bits := RangeBits(lo[0], hi[0]);
    assert lo[0] in bits;
    TowerEnd(before, root, prev, ls);
    bld.AddPtr(prev, 0, end, bits);
    BoxTrieGrown(before, bld.nodes, root, prev, end, ls, lo, hi, bits);
  }

  /** A chain of nodes from `first` to `end`: the loop of `acl_gen_range`. */
  method GenChain(bld: Builder, first: nat, end: nat, lo: seq<byte>, hi: seq<byte>, level: nat)
    requires |lo| == |hi| > 0 && forall n :: 0 <= n < |lo| ==> lo[n] <= hi[n]
    requires Blank(bld.nodes, first) && bld.nodes[first].level == level
    requires end < |bld.nodes| && end != first && bld.nodes[end].level == level + |lo|
    modifies bld
    ensures |old(bld.nodes)| <= |bld.nodes|
    ensures forall i :: 0 <= i < |old(bld.nodes)| && i != first ==> bld.nodes[i] == old(bld.nodes)[i]
    ensures BoxTrie(bld.nodes, first, end, Levels(level, |lo| + 1), lo, hi)
  {
    hide BoxTrie, Levels, Tower;
    BoxStart(bld.nodes, first, level, lo, hi);
    var prev := ChainNodes(bld, first, end, lo, hi, level);
    LevelsSnoc(level, |lo|);
    BoxEnd(bld, prev, end, lo, hi, first, Levels(level, |lo|));
  }

  lemma BoxStart(nodes: seq<Node>, first: nat, level: nat, lo: seq<byte>, hi: seq<byte>)
    requires first < |nodes| && nodes[first].level == level && |lo| == |hi|
    ensures BoxTrie(nodes, first, first, Levels(level, 1), lo[|lo|..], hi[|lo|..])
  {
  }

  method ChainNodes(bld: Builder, first: nat, end: nat, lo: seq<byte>, hi: seq<byte>, level: nat) returns (prev: nat)
    requires |lo| == |hi| > 0 && forall n :: 0 <= n < |lo| ==> lo[n] <= hi[n]
    requires Blank(bld.nodes, first) && end < |bld.nodes| && end != first
    requires BoxTrie(bld.nodes, first, first, Levels(level, 1), lo[|lo|..], hi[|lo|..])
    modifies bld
    ensures |old(bld.nodes)| <= |bld.nodes|
    ensures forall i :: 0 <= i < |old(bld.nodes)| && i != first ==> bld.nodes[i] == old(bld.nodes)[i]
    ensures (prev == first || |old(bld.nodes)| <= prev) && Blank(bld.nodes, prev)
    ensures BoxTrie(bld.nodes, first, prev, Levels(level, |lo|), lo[1..], hi[1..])
  {
    hide BoxTrie, Levels;
    prev := first;
    var n := |lo| - 1;
    while n > 0
      invariant 0 <= n < |lo|
      invariant |old(bld.nodes)| <= |bld.nodes|
      invariant forall i :: 0 <= i < |old(bld.nodes)| && i != first ==> bld.nodes[i] == old(bld.nodes)[i]
      invariant prev == first || |old(bld.nodes)| <= prev
      invariant Blank(bld.nodes, prev)
      invariant BoxTrie(bld.nodes, first, prev, Levels(level, |lo| - n), lo[n + 1..], hi[n + 1..])
    {
      assert lo[n..][1..] == lo[n + 1..] && hi[n..][1..] == hi[n + 1..];
      LevelsSnoc(level, |lo| - n);
      prev := BoxNode(bld, prev, level + |lo| - n, lo[n..], hi[n..], first, Levels(level, |lo| - n));
      n := n - 1;
    }
  }

  /** After first byte `x`, the root of a range mini-trie tests the box `lo`..`hi`. */
  ghost predicate Branch(nodes: seq<Node>, root: nat, end: nat, ls: seq<nat>, x: byte, lo: seq<byte>, hi: seq<byte>) {
    && root < |nodes| && |lo| == |hi| == |ls| - 1
    && var e := Edge(nodes[root].ptrs, x);
       e.Some? && BoxTrie(nodes, e.value, end, ls, lo, hi)
  }

  /** The root of a range mini-trie under construction. */
  ghost predicate RangeRoot(nodes: seq<Node>, root: nat, end: nat, level: nat, size: nat) {
    && root < |nodes| && end < |nodes| && end != root && size > 0
    && nodes[root].level == level && nodes[end].level == level + size
    && NodeOk(nodes[root])
  }

  lemma BranchFrame(nodes: seq<Node>, new_: seq<Node>, root: nat, end: nat, level: nat, ls: seq<nat>, x: byte,
      lo: seq<byte>, hi: seq<byte>)
    requires Branch(nodes, root, end, ls, x, lo, hi)
    requires end < |nodes| <= |new_| && end != root && nodes[root].level == level < ls[0]
    requires forall i :: 0 <= i < |nodes| && i != root ==> new_[i] == nodes[i]
    requires Edge(new_[root].ptrs, x) == Edge(nodes[root].ptrs, x)
    ensures Branch(new_, root, end, ls, x, lo, hi)
  {
    TowerFrame(nodes, new_, Edge(nodes[root].ptrs, x).value, end, ls);
  }

  /** The box `lo`..`hi` was added below the root; other branches are as before. */
  ghost predicate BranchAdded(nodes: seq<Node>, new_: seq<Node>, root: nat, end: nat, ls: seq<nat>, lo: seq<byte>,
      hi: seq<byte>)
    requires |lo| == |hi| > 0 && root < |nodes| && root < |new_|
  {
    var n := |lo| - 1;
    && (forall x: byte :: x in new_[root].values <==> x in nodes[root].values || lo[n] <= x <= hi[n])
    && (forall x: byte {:trigger Edge(new_[root].ptrs, x)} :: lo[n] <= x <= hi[n] ==>
         Branch(new_, root, end, ls, x, lo[..n], hi[..n]))
    && (forall x: byte, l, h {:trigger Branch(nodes, root, end, ls, x, l, h)} ::
          !(lo[n] <= x <= hi[n]) && Branch(nodes, root, end, ls, x, l, h) ==> Branch(new_, root, end, ls, x, l, h))
  }

  lemma AddBranch(nodes: seq<Node>, new_: seq<Node>, root: nat, end: nat, level: nat, ls: seq<nat>, lo: seq<byte>,
      hi: seq<byte>,
                  child: nat, bits: set<byte>)
    requires |lo| == |hi| == |ls| > 0 && level < ls[0]
    requires RangeRoot(nodes, root, end, level, |lo|)
    requires |nodes| <= |new_| && forall i :: 0 <= i < |nodes| && i != root ==> new_[i] == nodes[i]
    requires NodeOk(new_[root]) && new_[root].level == level && new_[root].values == nodes[root].values + bits
    requires forall x: byte :: Edge(new_[root].ptrs, x) == if x in bits then Some(child) else Edge(nodes[root].ptrs, x)
    requires forall x: byte :: x in bits <==> lo[|lo| - 1] <= x <= hi[|lo| - 1]
    requires BoxTrie(new_, child, end, ls, lo[..|lo| - 1], hi[..|lo| - 1])
    ensures RangeRoot(new_, root, end, level, |lo|)
    ensures BranchAdded(nodes, new_, root, end, ls, lo, hi)
  {
    hide BoxTrie, NodeOk, Edge;
    forall x: byte, l, h | x !in bits && Branch(nodes, root, end, ls, x, l, h)
      ensures Branch(new_, root, end, ls, x, l, h)
    {
      BranchFrame(nodes, new_, root, end, level, ls, x, l, h);
    }
  }

  /** `acl_gen_range`: add one box below the root. */
  method GenRange(bld: Builder, hi: seq<byte>, lo: seq<byte>, level: nat, root: nat, end: nat, ghost ls: seq<nat>)
    requires |lo| == |hi| > 0 && forall n :: 0 <= n < |lo| ==> lo[n] <= hi[n]
    requires ls == Levels(level + 1, |lo|) && RangeRoot(bld.nodes, root, end, level, |lo|)
    requires forall x :: x in bld.nodes[root].values ==> !(lo[|lo| - 1] <= x <= hi[|lo| - 1])
    modifies bld
    ensures |old(bld.nodes)| <= |bld.nodes|
    ensures forall i :: 0 <= i < |old(bld.nodes)| && i != root ==> bld.nodes[i] == old(bld.nodes)[i]
    ensures RangeRoot(bld.nodes, root, end, level, |lo|)
    ensures BranchAdded(old(bld.nodes), bld.nodes, root, end, ls, lo, hi)
  {
    hide BranchAdded, BoxTrie, NodeOk, Added;
    var n := |lo| - 1;
    ghost var before := bld.nodes;
    var bits := RangeBits(lo[n], hi[n]);
    assert lo[n] in bits;
    var child := end;
    if n > 0 {
      child := bld.AllocNode(level + 1);
    }
    AddedNode(before[root], child, bits);
    bld.AddPtr(root, 0, child, bits);
    if n > 0 {
      GenChain(bld, child, end, lo[..n], hi[..n], level + 1);
    } else {
      BoxStart(bld.nodes, end, level + 1, lo[..n], hi[..n]);
      assert lo[..n][n..] == lo[..n] && hi[..n][n..] == hi[..n];
    }
    AddBranch(before, bld.nodes, root, end, level, ls, lo, hi, child, bits);
  }

  /** The mini-trie `root`..`end` accepts exactly the inputs that pass the range test. */
  ghost predicate RangeTrie(nodes: seq<Node>, root: nat, end: nat, ls: seq<nat>, lo: seq<byte>, hi: seq<byte>)
    requires |lo| == |hi| == |ls| - 1 > 0 && lo[|lo| - 1] <= hi[|lo| - 1]
  {
    && Tower(nodes, root, end, ls)
    && forall s: seq<byte> :: |s| == |lo| ==> (Walk(nodes, root, s) == Some(end) <==> RangeBytesMatch(s, lo, hi))
  }

  /** Which box the root tests after first byte `x`, if any. */
  ghost predicate BranchFor(nodes: seq<Node>, root: nat, end: nat, ls: seq<nat>, x: byte, lo: seq<byte>, hi: seq<byte>)
    requires |lo| == |hi| > 0 && root < |nodes|
  {
    var n := |lo| - 1;
    if lo[n] == x == hi[n] then Branch(nodes, root, end, ls, x, lo[..n], hi[..n])
    else if x == hi[n] then Branch(nodes, root, end, ls, x, Fill(0, n), hi[..n])
    else if x == lo[n] then Branch(nodes, root, end, ls, x, lo[..n], Fill(255, n))
    else if lo[n] < x < hi[n] then Branch(nodes, root, end, ls, x, Fill(0, n), Fill(255, n))
    else Edge(nodes[root].ptrs, x) == None
  }

  lemma RangeTower(nodes: seq<Node>, root: nat, end: nat, level: nat, ls: seq<nat>, lo: seq<byte>, hi: seq<byte>)
    requires |lo| == |hi| == |ls| > 0 && level < ls[0] && lo[|lo| - 1] <= hi[|lo| - 1]
    requires RangeRoot(nodes, root, end, level, |lo|)
    requires forall x: byte :: BranchFor(nodes, root, end, ls, x, lo, hi)
    ensures Tower(nodes, root, end, [level] + ls)
  {
    var ps := nodes[root].ptrs;
    assert ([level] + ls)[1..] == ls;
    forall k | 0 <= k < |ps| ensures Tower(nodes, ps[k].child.value, end, ls) {
      var x :| x in ps[k].values;
      SlotIs(ps, x, k);
      assert BranchFor(nodes, root, end, ls, x, lo, hi);
    }
    assert BranchFor(nodes, root, end, ls, lo[|lo| - 1], lo, hi);
    assert Edge(ps, lo[|lo| - 1]).Some?;
  }

  lemma RangeWalk(nodes: seq<Node>, root: nat, end: nat, ls: seq<nat>, lo: seq<byte>, hi: seq<byte>, s: seq<byte>)
    requires |lo| == |hi| == |ls| == |s| > 0 && lo[|lo| - 1] <= hi[|lo| - 1] && root < |nodes|
    requires BranchFor(nodes, root, end, ls, s[0], lo, hi)
    ensures Walk(nodes, root, s) == Some(end) <==> RangeBytesMatch(s, lo, hi)
  {
    var n := |lo| - 1;
    var e := Edge(nodes[root].ptrs, s[0]);
    assert Walk(nodes, root, s) == if e.Some? then Walk(nodes, e.value, s[1..]) else None;
    if lo[n] < hi[n] {
      RangeBoxes(s, lo, hi);
      BoxFull(s[1..], Fill(0, n), Fill(255, n));
    }
  }

  /** A single box below a blank root is all there is. */
  lemma OneBranch(nodes: seq<Node>, new_: seq<Node>, root: nat, end: nat, level: nat, ls: seq<nat>, lo: seq<byte>,
      hi: seq<byte>)
    requires |lo| == |hi| > 0 && lo[|lo| - 1] == hi[|lo| - 1] && Blank(nodes, root)
    requires RangeRoot(new_, root, end, level, |lo|) && BranchAdded(nodes, new_, root, end, ls, lo, hi)
    ensures forall x: byte :: BranchFor(new_, root, end, ls, x, lo, hi)
  {
    var n := |lo| - 1;
    forall x: byte ensures BranchFor(new_, root, end, ls, x, lo, hi) {
      assert x in new_[root].values <==> x == lo[n];
      assert x == lo[n] ==> Edge(new_[root].ptrs, x).Some?;
    }
  }

  lemma RangeDone(nodes: seq<Node>, root: nat, end: nat, level: nat, ls: seq<nat>, lo: seq<byte>, hi: seq<byte>)
    requires |lo| == |hi| == |ls| > 0 && level < ls[0] && lo[|lo| - 1] <= hi[|lo| - 1]
    requires RangeRoot(nodes, root, end, level, |lo|)
    requires forall x: byte :: BranchFor(nodes, root, end, ls, x, lo, hi)
    ensures RangeTrie(nodes, root, end, [level] + ls, lo, hi)
  {
    RangeTower(nodes, root, end, level, ls, lo, hi);
    forall s: seq<byte> | |s| == |lo|
      ensures Walk(nodes, root, s) == Some(end) <==> RangeBytesMatch(s, lo, hi)
    {
      RangeWalk(nodes, root, end, ls, lo, hi, s);
    }
  }

  method GenRangeTrie(bld: Builder, lo: seq<byte>, hi: seq<byte>, level: nat) returns (root: nat, end: nat)
    requires |lo| == |hi| > 0 && lo[|lo| - 1] <= hi[|lo| - 1]
    requires lo[|lo| - 1] == hi[|lo| - 1] ==> forall n :: 0 <= n < |lo| ==> lo[n] <= hi[n]
    modifies bld
    ensures old(bld.nodes) <= bld.nodes
    ensures |old(bld.nodes)| <= root && |old(bld.nodes)| <= end && Blank(bld.nodes, end)
    ensures RangeTrie(bld.nodes, root, end, [level] + Levels(level + 1, |lo|), lo, hi)
  {
    hide BranchFor, BranchAdded, RangeTrie;
    var n := |lo| - 1;
    end := bld.AllocNode(level + |lo|);
    root := bld.AllocNode(level);
    ghost var ls := Levels(level + 1, |lo|);
    if lo[n] == hi[n] {
      ghost var before := bld.nodes;
      GenRange(bld, hi, lo, level, root, end, ls);
      OneBranch(before, bld.nodes, root, end, level, ls, lo, hi);
    } else {
      GenBoxes(bld, lo, hi, level, root, end, ls);
    }
    RangeDone(bld.nodes, root, end, level, ls, lo, hi);
  }

  /** The three boxes of a range whose bounds differ in the top byte. */
  method GenBoxes(bld: Builder, lo: seq<byte>, hi: seq<byte>, level: nat, root: nat, end: nat, ghost ls: seq<nat>)
    requires |lo| == |hi| > 0 && lo[|lo| - 1] < hi[|lo| - 1]
    requires ls == Levels(level + 1, |lo|) && RangeRoot(bld.nodes, root, end, level, |lo|) &&
      bld.nodes[root].values == {}
    modifies bld
    ensures |old(bld.nodes)| <= |bld.nodes|
    ensures forall i :: 0 <= i < |old(bld.nodes)| && i != root ==> bld.nodes[i] == old(bld.nodes)[i]
    ensures RangeRoot(bld.nodes, root, end, level, |lo|)
    ensures forall x: byte :: BranchFor(bld.nodes, root, end, ls, x, lo, hi)
  {
    var size, n := |lo|, |lo| - 1;
    var hiFF := AreAll(hi, n, 255);
    var lo00 := AreAll(lo, n, 0);
    var loEdge := Limit(0, hi[n], size);
    var hiEdge := Limit(255, lo[n], size);
    var loMid := Limit(0, if lo00 then lo[n] else lo[n] + 1, size);
    var hiMid := Limit(255, if hiFF then hi[n] else hi[n] - 1, size);
    LimitsOrdered(lo, hi, hi[n], lo[n]);
    LimitsOrdered(lo, hi, loMid[n], hiMid[n]);
    ghost var s0 := bld.nodes;
    ghost var s1 := GenEdgeBoxes(bld, lo, hi, hiFF, lo00, loEdge, hiEdge, level, root, end, ls);
    ghost var s2 := bld.nodes;
    MaybeGenRange(hi[n] - lo[n] > 1 || lo00 || hiFF, bld, hiMid, loMid, level, root, end, ls);
    BoxesBranches(s0, s1, s2, bld.nodes, root, end, ls, lo, hi, hiFF, lo00, loEdge, hiEdge, loMid, hiMid);
  }

  /** The boxes at the upper and at the lower end of the range. */
  method GenEdgeBoxes(bld: Builder, lo: seq<byte>, hi: seq<byte>, hiFF: bool, lo00: bool, loEdge: seq<byte>,
      hiEdge: seq<byte>,
                      level: nat, root: nat, end: nat, ghost ls: seq<nat>) returns (ghost s1: seq<Node>)
    requires |lo| == |hi| == |loEdge| == |hiEdge| > 0 && lo[|lo| - 1] < hi[|lo| - 1]
    requires loEdge[|lo| - 1] == hi[|lo| - 1] && hiEdge[|lo| - 1] == lo[|lo| - 1]
    requires forall n :: 0 <= n < |lo| - 1 ==> loEdge[n] == 0 && hiEdge[n] == 255
    requires ls == Levels(level + 1, |lo|) && RangeRoot(bld.nodes, root, end, level, |lo|) &&
      bld.nodes[root].values == {}
    modifies bld
    ensures |old(bld.nodes)| <= |bld.nodes| && root < |s1|
    ensures forall i :: 0 <= i < |old(bld.nodes)| && i != root ==> bld.nodes[i] == old(bld.nodes)[i]
    ensures RangeRoot(bld.nodes, root, end, level, |lo|)
    ensures MaybeAdded(!hiFF, old(bld.nodes), s1, root, end, ls, loEdge, hi)
    ensures MaybeAdded(!lo00, s1, bld.nodes, root, end, ls, lo, hiEdge)
    ensures forall x: byte :: x in bld.nodes[root].values <==>
      (!hiFF && x == hi[|lo| - 1]) || (!lo00 && x == lo[|lo| - 1])
  {
    MaybeGenRange(!hiFF, bld, hi, loEdge, level, root, end, ls);
    s1 := bld.nodes;
    MaybeGenRange(!lo00, bld, hiEdge, lo, level, root, end, ls);
  }

  ghost predicate MaybeAdded(cond: bool, nodes: seq<Node>, new_: seq<Node>, root: nat, end: nat, ls: seq<nat>,
      lo: seq<byte>, hi: seq<byte>)
    requires |lo| == |hi| > 0 && root < |nodes| && root < |new_|
  {
    if cond then BranchAdded(nodes, new_, root, end, ls, lo, hi) else new_ == nodes
  }

  method MaybeGenRange(cond: bool, bld: Builder, hi: seq<byte>, lo: seq<byte>, level: nat, root: nat, end: nat,
      ghost ls: seq<nat>)
    requires |lo| == |hi| > 0 && (cond ==> forall n :: 0 <= n < |lo| ==> lo[n] <= hi[n])
    requires ls == Levels(level + 1, |lo|) && RangeRoot(bld.nodes, root, end, level, |lo|)
    requires cond ==> forall x :: x in bld.nodes[root].values ==> !(lo[|lo| - 1] <= x <= hi[|lo| - 1])
    modifies bld
    ensures |old(bld.nodes)| <= |bld.nodes|
    ensures forall i :: 0 <= i < |old(bld.nodes)| && i != root ==> bld.nodes[i] == old(bld.nodes)[i]
    ensures RangeRoot(bld.nodes, root, end, level, |lo|)
    ensures MaybeAdded(cond, old(bld.nodes), bld.nodes, root, end, ls, lo, hi)
    ensures forall x: byte :: x in bld.nodes[root].values <==>
      x in old(bld.nodes[root].values) || (cond && lo[|lo| - 1] <= x <= hi[|lo| - 1])
  {
    if cond {
      GenRange(bld, hi, lo, level, root, end, ls);
    }
  }

  lemma LimitsOrdered(lo: seq<byte>, hi: seq<byte>, x: byte, y: byte)
    requires |lo| == |hi| > 0
    ensures forall n :: 0 <= n < |lo| - 1 ==> Limit(0, x, |lo|)[n] == 0
    ensures forall n :: 0 <= n < |lo| - 1 ==> Limit(255, y, |lo|)[n] == 255
  {
    assert Limit(0, x, |lo|) == Fill(0, |lo| - 1) + [x];
    assert Limit(255, y, |lo|) == Fill(255, |lo| - 1) + [y];
  }

  ghost predicate BoxesAdded(s0: seq<Node>, s1: seq<Node>, s2: seq<Node>, s3: seq<Node>, root: nat, end: nat,
      ls: seq<nat>, lo: seq<byte>, hi: seq<byte>,
                             hiFF: bool, lo00: bool,
                             loEdge: seq<byte>, hiEdge: seq<byte>, loMid: seq<byte>, hiMid: seq<byte>)
  {
    && |lo| == |hi| > 0 && lo[|lo| - 1] < hi[|lo| - 1]
    && root < |s0| && root < |s1| && root < |s2| && root < |s3|
    && s0[root].values == {} && NodeOk(s3[root])
    && hiFF == AllBytes(hi[..|lo| - 1], 255) && lo00 == AllBytes(lo[..|lo| - 1], 0)
    && loEdge == Limit(0, hi[|lo| - 1], |lo|) && hiEdge == Limit(255, lo[|lo| - 1], |lo|)
    && loMid == Limit(0, if lo00 then lo[|lo| - 1] else lo[|lo| - 1] + 1, |lo|)
    && hiMid == Limit(255, if hiFF then hi[|lo| - 1] else hi[|lo| - 1] - 1, |lo|)
    && MaybeAdded(!hiFF, s0, s1, root, end, ls, loEdge, hi)
    && MaybeAdded(!lo00, s1, s2, root, end, ls, lo, hiEdge)
    && MaybeAdded(hi[|lo| - 1] - lo[|lo| - 1] > 1 || lo00 || hiFF, s2, s3, root, end, ls, loMid, hiMid)
  }

  lemma BoxesBranches(s0: seq<Node>, s1: seq<Node>, s2: seq<Node>, s3: seq<Node>, root: nat, end: nat, ls: seq<nat>,
      lo: seq<byte>, hi: seq<byte>,
                      hiFF: bool, lo00: bool,
                      loEdge: seq<byte>, hiEdge: seq<byte>, loMid: seq<byte>, hiMid: seq<byte>)
    requires BoxesAdded(s0, s1, s2, s3, root, end, ls, lo, hi, hiFF, lo00, loEdge, hiEdge, loMid, hiMid)
    ensures forall x: byte :: BranchFor(s3, root, end, ls, x, lo, hi)
  {
    forall x: byte ensures BranchFor(s3, root, end, ls, x, lo, hi) {
      BoxesBranch(s0, s1, s2, s3, root, end, ls, lo, hi, hiFF, lo00, loEdge, hiEdge, loMid, hiMid, x);
    }
  }

  lemma BoxesBranch(s0: seq<Node>, s1: seq<Node>, s2: seq<Node>, s3: seq<Node>, root: nat, end: nat, ls: seq<nat>,
      lo: seq<byte>, hi: seq<byte>,
                    hiFF: bool, lo00: bool,
                    loEdge: seq<byte>, hiEdge: seq<byte>, loMid: seq<byte>, hiMid: seq<byte>, x: byte)
    requires BoxesAdded(s0, s1, s2, s3, root, end, ls, lo, hi, hiFF, lo00, loEdge, hiEdge, loMid, hiMid)
    ensures BranchFor(s3, root, end, ls, x, lo, hi)
  {
    hide Branch, NodeOk, MaybeAdded, Edge;
    var n := |lo| - 1;
    assert hiFF ==> hi[..n] == Fill(255, n);
    assert lo00 ==> lo[..n] == Fill(0, n);
    var mid := hi[n] - lo[n] > 1 || lo00 || hiFF;
    if x == hi[n] && !hiFF {
      AddsBranch(true, s0, s1, root, end, ls, loEdge, hi, x);
      KeepsBranch(!lo00, s1, s2, root, end, ls, lo, hiEdge, x, Fill(0, n), hi[..n]);
      KeepsBranch(mid, s2, s3, root, end, ls, loMid, hiMid, x, Fill(0, n), hi[..n]);
    } else if x == lo[n] && !lo00 {
      AddsBranch(true, s1, s2, root, end, ls, lo, hiEdge, x);
      KeepsBranch(mid, s2, s3, root, end, ls, loMid, hiMid, x, lo[..n], Fill(255, n));
    } else if lo[n] <= x <= hi[n] {
      AddsBranch(true, s2, s3, root, end, ls, loMid, hiMid, x);
    } else {
      AddsValues(!hiFF, s0, s1, root, end, ls, loEdge, hi, x);
      AddsValues(!lo00, s1, s2, root, end, ls, lo, hiEdge, x);
      AddsValues(mid, s2, s3, root, end, ls, loMid, hiMid, x);
      NoEdge(s3[root], x);
    }
  }

  lemma AddsBranch(cond: bool, nodes: seq<Node>, new_: seq<Node>, root: nat, end: nat, ls: seq<nat>, lo: seq<byte>,
      hi: seq<byte>, x: byte)
    requires |lo| == |hi| > 0 && root < |nodes| && root < |new_| && lo[|lo| - 1] <= x <= hi[|lo| - 1]
    requires cond && MaybeAdded(cond, nodes, new_, root, end, ls, lo, hi)
    ensures Branch(new_, root, end, ls, x, lo[..|lo| - 1], hi[..|lo| - 1])
  {
    var e := Edge(new_[root].ptrs, x);
  }

  lemma KeepsBranch(cond: bool, nodes: seq<Node>, new_: seq<Node>, root: nat, end: nat, ls: seq<nat>, lo: seq<byte>,
      hi: seq<byte>, x: byte, l: seq<byte>, h: seq<byte>)
    requires |lo| == |hi| > 0 && root < |nodes| && root < |new_| && !(lo[|lo| - 1] <= x <= hi[|lo| - 1])
    requires MaybeAdded(cond, nodes, new_, root, end, ls, lo, hi) && Branch(nodes, root, end, ls, x, l, h)
    ensures Branch(new_, root, end, ls, x, l, h)
  {
  }

  lemma AddsValues(cond: bool, nodes: seq<Node>, new_: seq<Node>, root: nat, end: nat, ls: seq<nat>, lo: seq<byte>,
      hi: seq<byte>, x: byte)
    requires |lo| == |hi| > 0 && root < |nodes| && root < |new_| && !(lo[|lo| - 1] <= x <= hi[|lo| - 1])
    requires MaybeAdded(cond, nodes, new_, root, end, ls, lo, hi)
    ensures x in new_[root].values <==> x in nodes[root].values
  {
  }

  lemma NoEdge(nd: Node, x: byte)
    requires NodeOk(nd) && x !in nd.values
    ensures Edge(nd.ptrs, x) == None
  {
  }

  /** The loops that compute `hi_ff` and `lo_00`. */
  method AreAll(b: seq<byte>, count: nat, x: byte) returns (r: bool)
    requires count <= |b|
    ensures r <==> AllBytes(b[..count], x)
  {
    r := true;
    var n := count;
    while n > 0
      invariant 0 <= n <= count
      invariant r <==> forall i :: n <= i < count ==> b[i] == x
    {
      n := n - 1;
      r := r && b[n] == x;
    }
  }
}
