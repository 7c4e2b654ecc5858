/**
  Merging of build-time tries: `acl_add_ptr`, `acl_compact_node_ptrs`,
  `acl_resolve_leaf` and `acl_merge_trie`.
*/
module AclMerge {
  import opened Basics
  import opened AclTrie

  // ------------------------------------------------------------- adding a pointer

  /** First slot that points to `child`; `|ptrs|` if there is none. */
  function FindChild(ptrs: seq<Ptr>, child: nat): (k: nat)
    ensures k <= |ptrs|
    ensures k < |ptrs| ==> ptrs[k].child == Some(child)
    ensures forall j :: 0 <= j < k ==> ptrs[j].child != Some(child)
  {
    if ptrs == [] then 0 else if ptrs[0].child == Some(child) then 0 else 1 + FindChild(ptrs[1..], child)
  }

  /** First empty slot at or after `from`; `|ptrs|` if there is none. */
  function FindFree(ptrs: seq<Ptr>, from: nat): (k: nat)
    ensures k <= |ptrs|
    ensures k < |ptrs| ==> from <= k && ptrs[k].child.None?
    ensures forall j :: from <= j < k ==> ptrs[j].child.Some?
    decreases |ptrs| - from
  {
    if from >= |ptrs| then |ptrs| else if ptrs[from].child.None? then from else FindFree(ptrs, from + 1)
  }

  /** The slots after a pointer to `child` for `bits` was added. */
  function AddedPtrs(ptrs: seq<Ptr>, minAdd: nat, child: nat, bits: set<byte>): seq<Ptr> {
    var k := FindChild(ptrs, child);
    if k < |ptrs| then ptrs[k := ptrs[k].(values := ptrs[k].values + bits)]
    else
      var j := FindFree(ptrs, minAdd);
      if j < |ptrs| then ptrs[j := Ptr(bits, Some(child))] else ptrs + [Ptr(bits, Some(child))]
  }

  function Added(nd: Node, minAdd: nat, child: nat, bits: set<byte>): Node {
    nd.(ptrs := AddedPtrs(nd.ptrs, minAdd, child, bits), values := nd.values + bits)
  }

  /** Slot `n` after `bits` were excluded from it: it becomes empty when nothing is left. */
  function ExcludedPtrs(ptrs: seq<Ptr>, n: nat, bits: set<byte>): seq<Ptr>
    requires n < |ptrs|
  {
    var rest := ptrs[n].values - bits;
    ptrs[n := if rest == {} then Ptr({}, None) else Ptr(rest, ptrs[n].child)]
  }

  /** `q` is `p` with `bits` added to slot `pos`, which may be a new last slot. */
  ghost predicate Grown(p: seq<Ptr>, q: seq<Ptr>, pos: nat, bits: set<byte>) {
    && |p| <= |q| && pos < |q|
    && (forall k :: 0 <= k < |q| && k != pos ==> k < |p| && q[k] == p[k])
    && q[pos].child.Some?
    && q[pos].values == (if pos < |p| then p[pos].values else {}) + bits
  }

  lemma GrownDisjoint(p: seq<Ptr>, q: seq<Ptr>, pos: nat, bits: set<byte>)
    requires Grown(p, q, pos, bits) && Disjoint(p)
    requires forall k :: 0 <= k < |p| && k != pos ==> p[k].values !! bits
    ensures Disjoint(q)
  {
  }

  lemma GrownEdges(p: seq<Ptr>, q: seq<Ptr>, pos: nat, bits: set<byte>, x: byte)
    requires Grown(p, q, pos, bits) && Disjoint(p) && Disjoint(q)
    requires pos < |p| && p[pos].child.Some? ==> q[pos].child == p[pos].child
    requires pos < |p| && p[pos].child.None? ==> p[pos].values == {}
    ensures x in bits ==> SlotOf(q, x) == pos
    ensures x !in bits ==> SlotOf(q, x) == if SlotOf(p, x) < |p| then SlotOf(p, x) else |q|
  {
    if x in bits {
      SlotIs(q, x, pos);
    } else if SlotOf(p, x) < |p| {
      SlotIs(q, x, SlotOf(p, x));
    }
  }

  /** Where `acl_add_ptr` puts the bits, when there is no gap from `minAdd` on. */
  lemma AddedGrown(ptrs: seq<Ptr>, minAdd: nat, child: nat, bits: set<byte>)
    requires forall k :: minAdd <= k < |ptrs| ==> ptrs[k].child.Some?
    ensures var t := FindChild(ptrs, child);
      && Grown(ptrs, AddedPtrs(ptrs, minAdd, child, bits), t, bits)
      && AddedPtrs(ptrs, minAdd, child, bits)[t].child == Some(child)
  {
  }

  lemma SlotWithin(ptrs: seq<Ptr>, values: set<byte>, k: nat)
    requires SlotsOk(ptrs, values) && k < |ptrs|
    ensures ptrs[k].values <= values
  {
    forall x | x in ptrs[k].values ensures x in values {
      SlotIs(ptrs, x, k);
    }
  }

  lemma AddedOk(ptrs: seq<Ptr>, values: set<byte>, minAdd: nat, child: nat, bits: set<byte>)
    requires SlotsOk(ptrs, values)
    requires bits != {} && bits !! values
    requires forall k :: minAdd <= k < |ptrs| ==> ptrs[k].child.Some?
    ensures var r := AddedPtrs(ptrs, minAdd, child, bits);
      && SlotsOk(r, values + bits)
      && (forall x: byte :: Edge(r, x) == if x in bits then Some(child) else Edge(ptrs, x))
  {
    var r := AddedPtrs(ptrs, minAdd, child, bits);
    var t := FindChild(ptrs, child);
    AddedGrown(ptrs, minAdd, child, bits);
    forall k | 0 <= k < |ptrs| ensures ptrs[k].values !! bits {
      SlotWithin(ptrs, values, k);
    }
    GrownDisjoint(ptrs, r, t, bits);
    forall x: byte
      ensures Edge(r, x) == if x in bits then Some(child) else Edge(ptrs, x)
      ensures x in values + bits <==> SlotOf(r, x) < |r|
    {
      GrownEdges(ptrs, r, t, bits, x);
    }
  }

  /** Adding a pointer keeps the node invariant. */
  lemma AddedNode(nd: Node, child: nat, bits: set<byte>)
    requires NodeOk(nd) && bits != {} && bits !! nd.values
    ensures var r := Added(nd, 0, child, bits);
      && NodeOk(r) && r.level == nd.level && r.values == nd.values + bits
      && (forall x: byte :: Edge(r.ptrs, x) == if x in bits then Some(child) else Edge(nd.ptrs, x))
  {
    AddedOk(nd.ptrs, nd.values, 0, child, bits);
    AddedGrown(nd.ptrs, 0, child, bits);
  }

  lemma ExcludedOk(ptrs: seq<Ptr>, values: set<byte>, n: nat, bits: set<byte>)
    requires SlotsOk(ptrs, values)
    requires n < |ptrs| && ptrs[n].child.Some? && bits <= ptrs[n].values
    ensures var r := ExcludedPtrs(ptrs, n, bits);
      && SlotsOk(r, values - bits)
      && (forall x: byte :: Edge(r, x) == if x in bits then None else Edge(ptrs, x))
  {
    var r := ExcludedPtrs(ptrs, n, bits);
    assert Disjoint(r);
    forall x: byte
      ensures Edge(r, x) == if x in bits then None else Edge(ptrs, x)
      ensures x in values - bits <==> SlotOf(r, x) < |r|
    {
      var k := SlotOf(ptrs, x);
      if x in bits {
        SlotIs(ptrs, x, n);
      } else if k < |ptrs| {
        if k == n { assert x in ptrs[n].values - bits; }
        SlotIs(r, x, k);
      }
    }
  }

  /** Slots after the transitions `bits` of slot `n` were redirected to `child`. */
  function MovedPtrs(ptrs: seq<Ptr>, minAdd: nat, n: nat, child: nat, bits: set<byte>): seq<Ptr>
    requires n < |ptrs|
  {
    ExcludedPtrs(AddedPtrs(ptrs, minAdd, child, bits), n, bits)
  }

  /** Redirecting changes exactly the edges in `bits`. */
  lemma MovedOk(ptrs: seq<Ptr>, values: set<byte>, minAdd: nat, n: nat, child: nat, bits: set<byte>)
    requires SlotsOk(ptrs, values)
    requires n < minAdd <= |ptrs| && ptrs[n].child.Some? && ptrs[n].child != Some(child)
    requires bits <= ptrs[n].values && bits != {}
    requires forall k :: minAdd <= k < |ptrs| ==> ptrs[k].child.Some?
    ensures var r := MovedPtrs(ptrs, minAdd, n, child, bits);
      && SlotsOk(r, values)
      && (forall x: byte :: Edge(r, x) == if x in bits then Some(child) else Edge(ptrs, x))
  {
    var p := ExcludedPtrs(ptrs, n, bits);
    ExcludedOk(ptrs, values, n, bits);
    AddedOk(p, values - bits, minAdd, child, bits);
    SlotWithin(ptrs, values, n);
    assert values - bits + bits == values;
    ExcludeThenAdd(ptrs, minAdd, n, child, bits);
  }

  lemma FindChildSame(p: seq<Ptr>, q: seq<Ptr>, child: nat)
    requires |p| == |q|
    requires forall j :: 0 <= j < |p| ==> (p[j].child == Some(child) <==> q[j].child == Some(child))
    ensures FindChild(p, child) == FindChild(q, child)
  {
  }

  lemma ExcludeThenAdd(ptrs: seq<Ptr>, minAdd: nat, n: nat, child: nat, bits: set<byte>)
    requires n < minAdd <= |ptrs| && ptrs[n].child != Some(child)
    requires forall k :: minAdd <= k < |ptrs| ==> ptrs[k].child.Some?
    ensures AddedPtrs(ExcludedPtrs(ptrs, n, bits), minAdd, child, bits) == MovedPtrs(ptrs, minAdd, n, child, bits)
  {
    var p := ExcludedPtrs(ptrs, n, bits);
    assert forall j :: 0 <= j < |p| ==> (p[j].child == Some(child) <==> ptrs[j].child == Some(child));
    FindChildSame(p, ptrs, child);
    var t := FindChild(ptrs, child);
    if t < |ptrs| {
      assert AddedPtrs(p, minAdd, child, bits) == p[t := ptrs[t].(values := ptrs[t].values + bits)];
    } else {
      assert FindFree(p, minAdd) == FindFree(ptrs, minAdd) == |ptrs|;
      assert AddedPtrs(p, minAdd, child, bits) == p + [Ptr(bits, Some(child))];
    }
  }

  // ------------------------------------------------------------------- compaction

  ghost predicate SameEdges(p: seq<Ptr>, q: seq<Ptr>) {
    forall x: byte :: Edge(p, x) == Edge(q, x)
  }

  /** `p` has the same transitions as `q`, up to the order of slots and empty ones. */
  ghost predicate Rearranged(p: seq<Ptr>, q: seq<Ptr>, values: set<byte>) {
    && SlotsOk(p, values)
    && SameEdges(p, q)
    && (forall k :: 0 <= k < |p| ==> p[k] in q)
  }

  /**
    Fill gaps with the last pointer. Nothing but the order of the slots changes,
    and slots without gaps stay as they are.
  */
  method CompactPtrs(old_: seq<Ptr>, minAdd: nat, ghost values: set<byte>) returns (ptrs: seq<Ptr>)
    requires SlotsOk(old_, values)
    ensures Rearranged(ptrs, old_, values)
    ensures forall k :: minAdd <= k < |ptrs| ==> ptrs[k].child.Some?
    ensures NoGaps(old_) ==> ptrs == old_
  {
    ptrs := TrimPtrs(old_, values);
    assert |ptrs| < |old_| ==> old_[|ptrs|].child.None?;
    var n: nat := minAdd;
    while n + 1 < |ptrs|
      invariant Rearranged(ptrs, old_, values)
      invariant forall k :: minAdd <= k < n && k < |ptrs| ==> ptrs[k].child.Some?
      invariant ptrs != [] ==> ptrs[|ptrs| - 1].child.Some?
      invariant NoGaps(old_) ==> ptrs == old_
      decreases |ptrs| - n
    {
      if ptrs[n].child.None? {
        ptrs := FillSlot(ptrs, n, values);
      }
      n := n + 1;
    }
  }

  /** Move the last pointer to the empty slot `n` and shorten the list. */
  method FillSlot(old_: seq<Ptr>, n: nat, ghost values: set<byte>) returns (ptrs: seq<Ptr>)
    requires SlotsOk(old_, values) && n + 1 < |old_|
    requires old_[n].child.None? && old_[|old_| - 1].child.Some?
    ensures Rearranged(ptrs, old_, values)
    ensures n < |ptrs| < |old_| && ptrs[..n] == old_[..n]
    ensures ptrs[n].child.Some? && ptrs[|ptrs| - 1].child.Some?
  {
    var last := |old_| - 1;
    FillGap(old_, values, n);
    ptrs := old_[n := old_[last]][..last];
    var filled := ptrs;
    ptrs := TrimPtrs(ptrs, values);
    assert filled[n].child.Some?;
  }

  /** Drop empty slots at the end. */
  method TrimPtrs(old_: seq<Ptr>, ghost values: set<byte>) returns (ptrs: seq<Ptr>)
    requires SlotsOk(old_, values)
    ensures SlotsOk(ptrs, values)
    ensures SameEdges(ptrs, old_)
    ensures ptrs <= old_
    ensures ptrs != [] ==> ptrs[|ptrs| - 1].child.Some?
    ensures forall k :: |ptrs| <= k < |old_| ==> old_[k].child.None?
  {
    ptrs := old_;
    while |ptrs| > 0 && ptrs[|ptrs| - 1].child.None?
      invariant SlotsOk(ptrs, values)
      invariant SameEdges(ptrs, old_)
      invariant ptrs <= old_
      invariant forall k :: |ptrs| <= k < |old_| ==> old_[k].child.None?
    {
      DropLast(ptrs, values);
      ptrs := ptrs[..|ptrs| - 1];
    }
  }

  lemma DropLast(ptrs: seq<Ptr>, values: set<byte>)
    requires SlotsOk(ptrs, values) && ptrs != [] && ptrs[|ptrs| - 1].child.None?
    ensures SlotsOk(ptrs[..|ptrs| - 1], values)
    ensures SameEdges(ptrs[..|ptrs| - 1], ptrs)
  {
    var q := ptrs[..|ptrs| - 1];
    forall x: byte
      ensures Edge(q, x) == Edge(ptrs, x)
      ensures x in values <==> SlotOf(q, x) < |q|
    {
      if SlotOf(ptrs, x) < |ptrs| { SlotIs(q, x, SlotOf(ptrs, x)); }
    }
  }

  lemma FillGap(ptrs: seq<Ptr>, values: set<byte>, n: nat)
    requires SlotsOk(ptrs, values) && n + 1 < |ptrs|
    requires ptrs[n].child.None? && ptrs[|ptrs| - 1].child.Some?
    ensures var q := ptrs[n := ptrs[|ptrs| - 1]][..|ptrs| - 1];
      && SlotsOk(q, values)
      && SameEdges(q, ptrs)
  {
    var last := |ptrs| - 1;
    var q := ptrs[n := ptrs[last]][..last];
    assert Disjoint(q);
    forall x: byte
      ensures Edge(q, x) == Edge(ptrs, x)
      ensures x in values <==> SlotOf(q, x) < |q|
    {
      var k := SlotOf(ptrs, x);
      if k < |ptrs| { SlotIs(q, x, if k == last then n else k); }
      var j := SlotOf(q, x);
      if j < |q| { SlotIs(ptrs, x, if j == n then last else j); }
    }
  }
}
