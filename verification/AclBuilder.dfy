/**
  The build context: an arena of nodes with the operations of acl_bld.c that
  allocate, extend and merge tries.
*/
module AclBuilder {
  import opened Basics
  import opened AclTrie
  import opened AclMerge

  // ------------------------------------------------- facts about joining results

  lemma {:induction false} LookupValid(nodes: seq<Node>, id: nat, ls: seq<nat>, categories: nat, s: seq<byte>)
    requires Wf(nodes, id, ls, categories) && |s| == |ls| - 1
    ensures var r := Lookup(nodes, id, s); r.Some? ==> r.value.Valid(categories)
    decreases |ls|
  {
    if |ls| > 1 {
      var k := SlotOf(nodes[id].ptrs, s[0]);
      if k < |nodes[id].ptrs| {
        LookupValid(nodes, nodes[id].ptrs[k].child.value, ls[1..], categories, s[1..]);
      }
    }
  }

  /** Joining `b` once more changes nothing. */
  lemma Rejoined(a: Option<Match>, b: Option<Match>)
    ensures Joined(Joined(a, b), b) == Joined(a, b)
  {
    if a.Some? && b.Some? {
      JoinTwice(a.value, b.value);
    }
  }

  /** Only configured categories can differ. */
  lemma AboveBelow(a: Match, b: Match, categories: nat)
    requires categories <= MAX_CATEGORIES && a.Valid(categories) && b.Valid(categories)
    ensures Above(a, b) <==> exists i :: 0 <= i < categories && a.priority[i] > b.priority[i]
    ensures Join(a, b).Valid(categories)
  {
  }

  /** The combined priority of `acl_resolve_leaf`: in which direction some category differs. */
  method Compare(a: Match, b: Match, categories: nat) returns (someA: bool, someB: bool)
    requires categories <= MAX_CATEGORIES && a.Sized() && b.Sized()
    ensures someA <==> exists i :: 0 <= i < categories && a.priority[i] > b.priority[i]
    ensures someB <==> exists i :: 0 <= i < categories && b.priority[i] > a.priority[i]
  {
    someA, someB := false, false;
    for n := 0 to categories
      invariant someA <==> exists i :: 0 <= i < n && a.priority[i] > b.priority[i]
      invariant someB <==> exists i :: 0 <= i < n && b.priority[i] > a.priority[i]
    {
      if a.priority[n] > b.priority[n] {
        someA := true;
      } else if a.priority[n] < b.priority[n] {
        someB := true;
      }
    }
  }

  /** The highest priority for each category. */
  method Mix(a: Match, b: Match, categories: nat) returns (c: Match)
    requires categories <= MAX_CATEGORIES && a.Valid(categories) && b.Valid(categories)
    ensures c == Mixed(a, b)
  {
    hide Mixed;
    c := a;
    for n := 0 to categories
      invariant c.Sized()
      invariant forall i :: 0 <= i < MAX_CATEGORIES ==>
        (c.results[i], c.priority[i]) ==
        if i < n && a.priority[i] < b.priority[i] then (b.results[i], b.priority[i]) else (a.results[i], a.priority[i])
    {
      if c.priority[n] < b.priority[n] {
        c := c.(priority := c.priority[n := b.priority[n]], results := c.results[n := b.results[n]]);
      }
    }
    assert c.results == Mixed(a, b).results && c.priority == Mixed(a, b).priority;
  }

  // --------------------------------------------- progress of the merge of two nodes

  /** On value `x`, child `e` is the join of the children of both nodes. */
  ghost predicate EdgeDone(nodes: seq<Node>, e: nat, nodes0: seq<Node>, pa: seq<Ptr>, pb: seq<Ptr>, x: byte, d: nat) {
    && Edge(pa, x).Some? && Edge(pb, x).Some?
    && JoinedTrie(nodes, e, nodes0, Edge(pa, x).value, Edge(pb, x).value, d)
  }

  predicate Visited(pb: seq<Ptr>, k: nat, x: byte, ptrsC: nat, n: nat, m: nat) {
    k < n || k >= ptrsC || (k == n && SlotOf(pb, x) < m)
  }

  ghost predicate SlotState(nodes: seq<Node>, nodes0: seq<Node>, pa: seq<Ptr>, pb: seq<Ptr>, slot: Ptr, k: nat, x: byte,
                            d: nat, n: nat, m: nat)
  {
    && slot.child.Some?
    && (|| EdgeDone(nodes, slot.child.value, nodes0, pa, pb, x, d)
        || (slot.child == Edge(pa, x) && (Edge(pb, x).Some? ==> !Visited(pb, k, x, |pa|, n, m))))
  }

  /**
    State of the double loop over the slots `pc` of the copy and the slots `pb` of B,
    about to look at slot pair (n, m). `ls` are the levels of the children.
  */
  ghost predicate Progress(nodes: seq<Node>, nodes0: seq<Node>, pa: seq<Ptr>, pb: seq<Ptr>, pc: seq<Ptr>,
                           values: set<byte>, ls: seq<nat>, categories: nat, n: nat, m: nat)
  {
    && |ls| > 0
    && |pa| <= |pc|
    && SlotsOk(pc, values)
    && (forall k :: |pa| <= k < |pc| ==> pc[k].child.Some?)
    && (forall k :: 0 <= k < |pc| && pc[k].child.Some? ==> Wf(nodes, pc[k].child.value, ls, categories))
    && (forall k, x :: 0 <= k < |pc| && x in pc[k].values ==>
          SlotState(nodes, nodes0, pa, pb, pc[k], k, x, |ls| - 1, n, m))
  }

  /** Everything at level `l` or below is unchanged. */
  ghost predicate Keeps(old_: seq<Node>, new_: seq<Node>, l: nat) {
    && |old_| <= |new_|
    && (forall i :: 0 <= i < |old_| && l <= old_[i].level ==> new_[i] == old_[i])
  }

  lemma ProgressExtend(nodes: seq<Node>, new_: seq<Node>, nodes0: seq<Node>, pa: seq<Ptr>, pb: seq<Ptr>, pc: seq<Ptr>,
                       values: set<byte>, ls: seq<nat>, categories: nat, n: nat, m: nat)
    requires Progress(nodes, nodes0, pa, pb, pc, values, ls, categories, n, m)
    requires Keeps(nodes, new_, ls[0])
    ensures Progress(new_, nodes0, pa, pb, pc, values, ls, categories, n, m)
  {
    forall k | 0 <= k < |pc| && pc[k].child.Some?
      ensures Wf(new_, pc[k].child.value, ls, categories)
      ensures forall x :: x in pc[k].values ==> SlotState(new_, nodes0, pa, pb, pc[k], k, x, |ls| - 1, n, m)
    {
      var e := pc[k].child.value;
      Frame(nodes, new_, e, ls, categories);
      forall x | x in pc[k].values
        ensures SlotState(new_, nodes0, pa, pb, pc[k], k, x, |ls| - 1, n, m)
      {
        assert SlotState(nodes, nodes0, pa, pb, pc[k], k, x, |ls| - 1, n, m);
        if EdgeDone(nodes, e, nodes0, pa, pb, x, |ls| - 1) {
          assert JoinedTrie(new_, e, nodes0, Edge(pa, x).value, Edge(pb, x).value, |ls| - 1);
        }
      }
    }
  }

  /** Joining the child of slot `n` with a child of B joins both sides of `x`. */
  lemma EdgeJoins(nodes: seq<Node>, new_: seq<Node>, nodes0: seq<Node>, pa: seq<Ptr>, pb: seq<Ptr>, slot: Ptr, k: nat,
                  x: byte, child: nat, d: nat, n: nat, m: nat)
    requires SlotState(nodes, nodes0, pa, pb, slot, k, x, d, n, m)
    requires Edge(pa, x).Some? && Edge(pb, x).Some?
    requires Agree(nodes0, nodes, Edge(pa, x).value, d) && Agree(nodes0, nodes, Edge(pb, x).value, d)
    requires JoinedTrie(new_, child, nodes, slot.child.value, Edge(pb, x).value, d)
    ensures EdgeDone(new_, child, nodes0, pa, pb, x, d)
  {
    var ea, eb := Edge(pa, x).value, Edge(pb, x).value;
    forall s: seq<byte> | |s| == d
      ensures Lookup(new_, child, s) == Joined(Lookup(nodes0, ea, s), Lookup(nodes0, eb, s))
    {
      assert Lookup(new_, child, s) == Joined(Lookup(nodes, slot.child.value, s), Lookup(nodes, eb, s));
      Rejoined(Lookup(nodes0, ea, s), Lookup(nodes0, eb, s));
    }
  }

  /** The trie at `id` means the same in both arenas. */
  ghost predicate Agree(nodes0: seq<Node>, nodes: seq<Node>, id: nat, d: nat) {
    forall s: seq<byte> :: |s| == d ==> Lookup(nodes, id, s) == Lookup(nodes0, id, s)
  }

  /** A slot pair needs no change when its common values are joined already. */
  lemma ProgressSkip(nodes: seq<Node>, nodes0: seq<Node>, pa: seq<Ptr>, pb: seq<Ptr>, pc: seq<Ptr>,
                     values: set<byte>, ls: seq<nat>, categories: nat, n: nat, m: nat)
    requires Progress(nodes, nodes0, pa, pb, pc, values, ls, categories, n, m)
    requires n < |pa| && m < |pb| && Disjoint(pb)
    requires forall x :: x in pc[n].values && x in pb[m].values ==>
      EdgeDone(nodes, pc[n].child.value, nodes0, pa, pb, x, |ls| - 1)
    ensures Progress(nodes, nodes0, pa, pb, pc, values, ls, categories, n, m + 1)
  {
    forall k, x | 0 <= k < |pc| && x in pc[k].values
      ensures SlotState(nodes, nodes0, pa, pb, pc[k], k, x, |ls| - 1, n, m + 1)
    {
      assert SlotState(nodes, nodes0, pa, pb, pc[k], k, x, |ls| - 1, n, m);
    }
  }

  lemma ProgressNext(nodes: seq<Node>, nodes0: seq<Node>, pa: seq<Ptr>, pb: seq<Ptr>, pc: seq<Ptr>,
                     values: set<byte>, ls: seq<nat>, categories: nat, n: nat)
    requires Progress(nodes, nodes0, pa, pb, pc, values, ls, categories, n, |pb|)
    ensures Progress(nodes, nodes0, pa, pb, pc, values, ls, categories, n + 1, 0)
  {
    forall k, x | 0 <= k < |pc| && x in pc[k].values
      ensures SlotState(nodes, nodes0, pa, pb, pc[k], k, x, |ls| - 1, n + 1, 0)
    {
      assert SlotState(nodes, nodes0, pa, pb, pc[k], k, x, |ls| - 1, n, |pb|);
    }
  }

  /** What redirecting `bits` to `child` did to the slots. */
  ghost predicate Moved(ptrs: seq<Ptr>, r: seq<Ptr>, minAdd: nat, n: nat, child: nat, bits: set<byte>) {
    && |ptrs| <= |r| && n < |ptrs|
    && (forall k :: 0 <= k < |ptrs| && k != n ==> r[k].child == ptrs[k].child)
    && r[n].child == (if ptrs[n].values - bits == {} then None else ptrs[n].child)
    && (forall k :: minAdd <= k < |r| ==> r[k].child.Some?)
    && (forall k :: 0 <= k < |r| && r[k].child.Some? ==>
          r[k].child == Some(child) || (k < |ptrs| && r[k].child == ptrs[k].child))
    && (forall k, x :: 0 <= k < |r| && x in r[k].values ==>
          if x in bits then r[k].child == Some(child)
          else k < |ptrs| && x in ptrs[k].values && r[k].child == ptrs[k].child)
  }

  lemma MovedShape(ptrs: seq<Ptr>, values: set<byte>, minAdd: nat, n: nat, child: nat, bits: set<byte>)
    requires SlotsOk(ptrs, values)
    requires n < minAdd <= |ptrs| && ptrs[n].child.Some? && ptrs[n].child != Some(child)
    requires bits <= ptrs[n].values && bits != {}
    requires forall k :: minAdd <= k < |ptrs| ==> ptrs[k].child.Some?
    ensures Moved(ptrs, MovedPtrs(ptrs, minAdd, n, child, bits), minAdd, n, child, bits)
  {
    AddedGrown(ptrs, minAdd, child, bits);
    var q := AddedPtrs(ptrs, minAdd, child, bits);
    assert q[n] == ptrs[n];
    assert forall k, x :: 0 <= k < |ptrs| && k != n && x in ptrs[k].values ==> x !in bits;
  }

  lemma MovedFacts(ptrs: seq<Ptr>, values: set<byte>, minAdd: nat, n: nat, child: nat, bits: set<byte>)
    requires SlotsOk(ptrs, values)
    requires n < minAdd <= |ptrs| && ptrs[n].child.Some? && ptrs[n].child != Some(child)
    requires bits <= ptrs[n].values && bits != {}
    requires forall k :: minAdd <= k < |ptrs| ==> ptrs[k].child.Some?
    ensures var r := MovedPtrs(ptrs, minAdd, n, child, bits);
      SlotsOk(r, values) && Moved(ptrs, r, minAdd, n, child, bits)
    ensures values + bits == values && n < |AddedPtrs(ptrs, minAdd, child, bits)|
  {
    hide SlotsOk, Moved, AddedPtrs, ExcludedPtrs;
    MovedOk(ptrs, values, minAdd, n, child, bits);
    MovedShape(ptrs, values, minAdd, n, child, bits);
    SlotWithin(ptrs, values, n);
    AddedLonger(ptrs, minAdd, child, bits);
  }

  lemma AddedLonger(ptrs: seq<Ptr>, minAdd: nat, child: nat, bits: set<byte>)
    ensures |ptrs| <= |AddedPtrs(ptrs, minAdd, child, bits)|
  {
  }

  /** Redirecting the common values of a slot pair to the joined child. */
  lemma ProgressMove(nodes: seq<Node>, nodes0: seq<Node>, pa: seq<Ptr>, pb: seq<Ptr>, pc: seq<Ptr>, r: seq<Ptr>,
                     values: set<byte>, ls: seq<nat>, categories: nat, n: nat, m: nat, child: nat)
    requires Progress(nodes, nodes0, pa, pb, pc, values, ls, categories, n, m)
    requires n < |pa| && m < |pb| && Disjoint(pb)
    requires SlotsOk(r, values) && Moved(pc, r, |pa|, n, child, pc[n].values * pb[m].values)
    requires Wf(nodes, child, ls, categories)
    requires forall x :: x in pc[n].values && x in pb[m].values ==>
      EdgeDone(nodes, child, nodes0, pa, pb, x, |ls| - 1)
    ensures Progress(nodes, nodes0, pa, pb, r, values, ls, categories, n, m + 1)
  {
    hide EdgeDone, Wf;
    var bits := pc[n].values * pb[m].values;
    forall k, x | 0 <= k < |r| && x in r[k].values
      ensures SlotState(nodes, nodes0, pa, pb, r[k], k, x, |ls| - 1, n, m + 1)
    {
      if x !in bits {
        assert SlotState(nodes, nodes0, pa, pb, pc[k], k, x, |ls| - 1, n, m);
      }
    }
  }

  // ------------------------------------------------------------ reference counting

  /** The slots of A that still count as references before slot `n` is looked at. */
  ghost function Counted(ptrs: seq<Ptr>, ptrsC: nat, n: nat): set<int>
    requires ptrsC <= |ptrs|
  {
    set k: int | 0 <= k < ptrsC && (n <= k || ptrs[k].child.Some?)
  }

  /**
    `aRefs` counts the slots of A not known to be empty, plus the `extra` children
    that are neither of A nor of B.
  */
  ghost predicate RefsOfA(pc: seq<Ptr>, pb: seq<Ptr>, ptrsC: nat, n: nat, aRefs: int, extra: int) {
    && ptrsC <= |pc|
    && extra >= 0
    && aRefs == |Counted(pc, ptrsC, n)| + extra
    && (extra == 0 ==> forall k, x :: ptrsC <= k < |pc| && x in pc[k].values ==> pc[k].child == Edge(pb, x))
  }

  lemma {:induction false} RefsStart(ptrs: seq<Ptr>, ptrsC: nat)
    requires ptrsC <= |ptrs|
    ensures |Counted(ptrs, ptrsC, 0)| == ptrsC
  {
    if ptrsC > 0 {
      RefsStart(ptrs, ptrsC - 1);
      assert Counted(ptrs, ptrsC, 0) == Counted(ptrs, ptrsC - 1, 0) + {ptrsC - 1};
    }
  }

  /** Looking at slot `n` corrects the count if it is empty. */
  lemma RefsVisit(pc: seq<Ptr>, pb: seq<Ptr>, ptrsC: nat, n: nat, aRefs: int, extra: int)
    requires RefsOfA(pc, pb, ptrsC, n, aRefs, extra) && n < ptrsC
    ensures RefsOfA(pc, pb, ptrsC, n + 1, aRefs - (if pc[n].child.None? then 1 else 0), extra)
  {
    if pc[n].child.None? {
      assert Counted(pc, ptrsC, n + 1) == Counted(pc, ptrsC, n) - {n};
    } else {
      assert Counted(pc, ptrsC, n + 1) == Counted(pc, ptrsC, n);
    }
  }

  lemma RefsMove(pc: seq<Ptr>, r: seq<Ptr>, pb: seq<Ptr>, ptrsC: nat, n: nat, m: nat, child: nat, aRefs: int,
      extra: int)
    requires RefsOfA(pc, pb, ptrsC, n + 1, aRefs, extra)
    requires n < ptrsC && m < |pb| && Disjoint(pb) && pc[n].child.Some? && NoGaps(pb)
    requires Moved(pc, r, ptrsC, n, child, pc[n].values * pb[m].values)
    ensures var foreign := if Some(child) != pb[m].child then 1 else 0;
      RefsOfA(r, pb, ptrsC, n + 1, aRefs + foreign - (if r[n].child.None? then 1 else 0), extra + foreign)
  {
    if r[n].child.None? {
      assert Counted(r, ptrsC, n + 1) == Counted(pc, ptrsC, n + 1) - {n};
    } else {
      assert Counted(r, ptrsC, n + 1) == Counted(pc, ptrsC, n + 1);
    }
    var bits := pc[n].values * pb[m].values;
    if extra == 0 && Some(child) == pb[m].child {
      forall k, x | ptrsC <= k < |r| && x in r[k].values
        ensures r[k].child == Edge(pb, x)
      {
        if x in bits { SlotIs(pb, x, m); }
      }
    }
  }

  lemma NoRefsOfA(pc: seq<Ptr>, pa: seq<Ptr>, pb: seq<Ptr>, values: set<byte>, extra: int)
    requires |pa| <= |pc| && RefsOfA(pc, pb, |pa|, |pa|, 0, extra)
    requires SlotsOk(pc, values) && Covers(pa, values)
    ensures forall x: byte :: Edge(pa, x).Some? ==> Edge(pc, x) == Edge(pb, x)
  {
    assert Counted(pc, |pa|, |pa|) == {};
    forall x: byte | Edge(pa, x).Some?
      ensures Edge(pc, x) == Edge(pb, x)
    {
      var k := SlotOf(pc, x);
      assert k !in Counted(pc, |pa|, |pa|);
    }
  }

  // ------------------------------------------------------------------ assembling C

  /** On value `x` the merged node leads to the join of what A and B lead to. */
  ghost predicate EdgeMerged(nodes: seq<Node>, nodes0: seq<Node>, pa: seq<Ptr>, pb: seq<Ptr>, e: Option<nat>, x: byte,
      d: nat) {
    match (Edge(pa, x), Edge(pb, x))
    case (None, None) => e.None?
    case (Some(ea), None) => e == Some(ea)
    case (None, Some(eb)) => e == Some(eb)
    case (Some(ea), Some(eb)) => e.Some? && JoinedTrie(nodes, e.value, nodes0, ea, eb, d)
  }

  lemma EdgeOfWf(nodes: seq<Node>, id: nat, ls: seq<nat>, categories: nat, x: byte)
    requires Wf(nodes, id, ls, categories) && |ls| > 1
    ensures Edge(nodes[id].ptrs, x).Some? ==> Wf(nodes, Edge(nodes[id].ptrs, x).value, ls[1..], categories)
  {
  }

  /** One step of a lookup, in the arena before and after a merge of lower levels. */
  lemma StepDown(nodes0: seq<Node>, nodes: seq<Node>, id: nat, ls: seq<nat>, categories: nat, s: seq<byte>)
    requires Wf(nodes0, id, ls, categories) && |s| == |ls| - 1 > 0
    requires Keeps(nodes0, nodes, ls[1])
    ensures var e := Edge(nodes0[id].ptrs, s[0]);
      match e
      case None => Lookup(nodes0, id, s) == None
      case Some(i) => Lookup(nodes0, id, s) == Lookup(nodes0, i, s[1..]) == Lookup(nodes, i, s[1..])
  {
    var e := Edge(nodes0[id].ptrs, s[0]);
    if e.Some? {
      EdgeOfWf(nodes0, id, ls, categories, s[0]);
      Frame(nodes0, nodes, e.value, ls[1..], categories);
    }
  }

  lemma MergedJoins(nodes: seq<Node>, nodes0: seq<Node>, a: nat, b: nat, c: nat, ls: seq<nat>, categories: nat)
    requires Wf(nodes0, a, ls, categories) && Wf(nodes0, b, ls, categories) && |ls| > 1
    requires Keeps(nodes0, nodes, ls[1])
    requires c < |nodes|
    requires forall x: byte ::
      EdgeMerged(nodes, nodes0, nodes0[a].ptrs, nodes0[b].ptrs, Edge(nodes[c].ptrs, x), x, |ls| - 2)
    ensures JoinedTrie(nodes, c, nodes0, a, b, |ls| - 1)
  {
    forall s: seq<byte> | |s| == |ls| - 1
      ensures Lookup(nodes, c, s) == Joined(Lookup(nodes0, a, s), Lookup(nodes0, b, s))
    {
      StepDown(nodes0, nodes, a, ls, categories, s);
      StepDown(nodes0, nodes, b, ls, categories, s);
      var ec := Edge(nodes[c].ptrs, s[0]);
      assert EdgeMerged(nodes, nodes0, nodes0[a].ptrs, nodes0[b].ptrs, ec, s[0], |ls| - 2);
      assert ec.Some? ==> Lookup(nodes, c, s) == Lookup(nodes, ec.value, s[1..]);
    }
  }

  /** A node is as good as another one with the same edges. */
  lemma SameEdgesSameLookup(nodes: seq<Node>, c: nat, c': nat, s: seq<byte>)
    requires c < |nodes| && c' < |nodes| && SameEdges(nodes[c].ptrs, nodes[c'].ptrs) && s != []
    ensures Lookup(nodes, c, s) == Lookup(nodes, c', s)
  {
    assert Edge(nodes[c].ptrs, s[0]) == Edge(nodes[c'].ptrs, s[0]);
  }

  // ------------------------------------------------------- the double loop, step by step

  /** What the double loop leaves alone, and what it changes of C. */
  ghost predicate LoopFrame(start: seq<Node>, nodes: seq<Node>, nodes0: seq<Node>, a: nat, b: nat, c: nat, ls: seq<nat>)
    requires |ls| > 1 && a < |nodes0| && b < |nodes0|
  {
    && |start| <= |nodes| && b < |start| && c < |start| && b != c
    && (forall i :: 0 <= i < |start| && i != c ==> nodes[i] == start[i])
    && nodes[c] == nodes0[a].(ptrs := nodes[c].ptrs)
    && nodes[b] == nodes0[b]
    && Keeps(nodes0, nodes, ls[1])
  }

  ghost predicate LoopInv(nodes: seq<Node>, nodes0: seq<Node>, a: nat, b: nat, pc: seq<Ptr>, ls: seq<nat>,
      categories: nat, n: nat, m: nat)
    requires |ls| > 1 && a < |nodes0| && b < |nodes0|
  {
    Progress(nodes, nodes0, nodes0[a].ptrs, nodes0[b].ptrs, pc, nodes0[a].values, ls[1..], categories, n, m)
  }

  lemma LoopStart(nodes: seq<Node>, nodes0: seq<Node>, a: nat, b: nat, ls: seq<nat>, categories: nat)
    requires |ls| > 1 && Wf(nodes0, a, ls, categories) && Wf(nodes0, b, ls, categories)
    requires Keeps(nodes0, nodes, ls[1])
    ensures Progress(nodes, nodes0, nodes0[a].ptrs, nodes0[b].ptrs, nodes0[a].ptrs, nodes0[a].values, ls[1..],
      categories, 0, 0)
  {
    var pa, pb := nodes0[a].ptrs, nodes0[b].ptrs;
    forall k | 0 <= k < |pa| ensures Wf(nodes, pa[k].child.value, ls[1..], categories) {
      Frame(nodes0, nodes, pa[k].child.value, ls[1..], categories);
    }
    forall k, x | 0 <= k < |pa| && x in pa[k].values
      ensures SlotState(nodes, nodes0, pa, pb, pa[k], k, x, |ls| - 2, 0, 0)
    {
      SlotIs(pa, x, k);
    }
  }

  lemma ProgressEmpty(nodes: seq<Node>, nodes0: seq<Node>, pa: seq<Ptr>, pb: seq<Ptr>, pc: seq<Ptr>,
                      values: set<byte>, ls: seq<nat>, categories: nat, n: nat)
    requires Progress(nodes, nodes0, pa, pb, pc, values, ls, categories, n, 0)
    requires n < |pc| && pc[n].child.None?
    ensures Progress(nodes, nodes0, pa, pb, pc, values, ls, categories, n + 1, 0)
  {
    forall k, x | 0 <= k < |pc| && x in pc[k].values
      ensures SlotState(nodes, nodes0, pa, pb, pc[k], k, x, |ls| - 1, n + 1, 0)
    {
      assert SlotState(nodes, nodes0, pa, pb, pc[k], k, x, |ls| - 1, n, 0);
    }
  }

  /** Joining the children of a slot pair joins both nodes on all their common values. */
  lemma PairJoins(nodes: seq<Node>, new_: seq<Node>, nodes0: seq<Node>, a: nat, b: nat, pc: seq<Ptr>, ls: seq<nat>,
                  categories: nat, n: nat, m: nat, child: nat)
    requires |ls| > 1 && Wf(nodes0, a, ls, categories) && Wf(nodes0, b, ls, categories)
    requires Progress(nodes, nodes0, nodes0[a].ptrs, nodes0[b].ptrs, pc, nodes0[a].values, ls[1..], categories, n, m)
    requires Keeps(nodes0, nodes, ls[1])
    requires n < |pc| && m < |nodes0[b].ptrs| && pc[n].child.Some?
    requires JoinedTrie(new_, child, nodes, pc[n].child.value, nodes0[b].ptrs[m].child.value, |ls| - 2)
    ensures forall x :: x in pc[n].values && x in nodes0[b].ptrs[m].values ==>
      EdgeDone(new_, child, nodes0, nodes0[a].ptrs, nodes0[b].ptrs, x, |ls| - 2)
  {
    var pa, pb := nodes0[a].ptrs, nodes0[b].ptrs;
    forall x | x in pc[n].values && x in pb[m].values
      ensures EdgeDone(new_, child, nodes0, pa, pb, x, |ls| - 2)
    {
      SlotIs(pc, x, n);
      SlotIs(pb, x, m);
      EdgeOfWf(nodes0, a, ls, categories, x);
      EdgeOfWf(nodes0, b, ls, categories, x);
      Frame(nodes0, nodes, Edge(pa, x).value, ls[1..], categories);
      Frame(nodes0, nodes, Edge(pb, x).value, ls[1..], categories);
      EdgeJoins(nodes, new_, nodes0, pa, pb, pc[n], n, x, child, |ls| - 2, n, m);
    }
  }

  /** The loop invariants survive the redirection of a slot pair. */
  lemma RedirectOk(start: seq<Node>, nodes: seq<Node>, new_: seq<Node>, r: seq<Ptr>, nodes0: seq<Node>, a: nat, b: nat,
      c: nat,
                   ls: seq<nat>, categories: nat, n: nat, m: nat, child: nat)
    requires |ls| > 1 && Wf(nodes0, a, ls, categories) && Wf(nodes0, b, ls, categories)
    requires LoopFrame(start, nodes, nodes0, a, b, c, ls)
    requires n < |nodes0[a].ptrs| && m < |nodes0[b].ptrs|
    requires LoopInv(nodes, nodes0, a, b, nodes[c].ptrs, ls, categories, n, m)
    requires Wf(nodes, child, ls[1..], categories)
    requires forall x :: x in nodes[c].ptrs[n].values && x in nodes0[b].ptrs[m].values ==>
      EdgeDone(nodes, child, nodes0, nodes0[a].ptrs, nodes0[b].ptrs, x, |ls| - 2)
    requires SlotsOk(r, nodes0[a].values)
    requires Moved(nodes[c].ptrs, r, |nodes0[a].ptrs|, n, child, nodes[c].ptrs[n].values * nodes0[b].ptrs[m].values)
    requires new_ == nodes[c := nodes[c].(ptrs := r)]
    ensures LoopFrame(start, new_, nodes0, a, b, c, ls)
    ensures LoopInv(new_, nodes0, a, b, r, ls, categories, n, m + 1)
  {
    hide LoopFrame, Progress, Moved, SlotsOk, EdgeDone, Wf;
    RedirectFrame(start, nodes, new_, r, nodes0, a, b, c, ls, categories);
    ProgressMove(nodes, nodes0, nodes0[a].ptrs, nodes0[b].ptrs, nodes[c].ptrs, r, nodes0[a].values, ls[1..],
      categories, n, m, child);
    ProgressExtend(nodes, new_, nodes0, nodes0[a].ptrs, nodes0[b].ptrs, r, nodes0[a].values, ls[1..], categories, n,
      m + 1);
  }

  lemma RedirectFrame(start: seq<Node>, nodes: seq<Node>, new_: seq<Node>, r: seq<Ptr>, nodes0: seq<Node>, a: nat,
      b: nat, c: nat,
                      ls: seq<nat>, categories: nat)
    requires |ls| > 1 && Wf(nodes0, a, ls, categories) && Wf(nodes0, b, ls, categories)
    requires LoopFrame(start, nodes, nodes0, a, b, c, ls) && new_ == nodes[c := nodes[c].(ptrs := r)]
    ensures a < |nodes0| && b < |nodes0| && c < |nodes|
    ensures LoopFrame(start, new_, nodes0, a, b, c, ls)
    ensures Keeps(nodes, new_, ls[1]) && Disjoint(nodes0[b].ptrs)
  {
  }

  lemma SelfJoinedTrie(nodes: seq<Node>, e: nat, ls: seq<nat>, categories: nat)
    requires Wf(nodes, e, ls, categories)
    ensures JoinedTrie(nodes, e, nodes, e, e, |ls| - 1)
  {
    forall s: seq<byte> | |s| == |ls| - 1
      ensures Lookup(nodes, e, s) == Joined(Lookup(nodes, e, s), Lookup(nodes, e, s))
    {
    }
  }

  // ----------------------------------------------------------- after the double loop

  /** C is done for the values of A: `pc` are its slots, children live in `nodes`. */
  ghost predicate InnerDone(nodes: seq<Node>, nodes0: seq<Node>, a: nat, b: nat, pc: seq<Ptr>, ls: seq<nat>,
      categories: nat)
    requires |ls| > 1 && a < |nodes0| && b < |nodes0|
  {
    && SlotsOk(pc, nodes0[a].values)
    && (forall k :: 0 <= k < |pc| && pc[k].child.Some? ==> Wf(nodes, pc[k].child.value, ls[1..], categories))
    && (forall x: byte :: Edge(nodes0[a].ptrs, x).Some? ==>
          EdgeMerged(nodes, nodes0, nodes0[a].ptrs, nodes0[b].ptrs, Edge(pc, x), x, |ls| - 2))
  }

  lemma ChildrenMerged(nodes: seq<Node>, nodes0: seq<Node>, a: nat, b: nat, pc: seq<Ptr>, ls: seq<nat>, categories: nat)
    requires |ls| > 1 && Wf(nodes0, a, ls, categories) && Wf(nodes0, b, ls, categories)
    requires LoopInv(nodes, nodes0, a, b, pc, ls, categories, |nodes0[a].ptrs|, 0)
    ensures InnerDone(nodes, nodes0, a, b, pc, ls, categories)
  {
    var pa, pb := nodes0[a].ptrs, nodes0[b].ptrs;
    forall x: byte | Edge(pa, x).Some?
      ensures EdgeMerged(nodes, nodes0, pa, pb, Edge(pc, x), x, |ls| - 2)
    {
      var k := SlotOf(pc, x);
      assert SlotState(nodes, nodes0, pa, pb, pc[k], k, x, |ls| - 2, |pa|, 0);
    }
  }

  lemma NothingShared(nodes: seq<Node>, nodes0: seq<Node>, a: nat, b: nat, ls: seq<nat>, categories: nat)
    requires |ls| > 1 && Wf(nodes0, a, ls, categories) && Wf(nodes0, b, ls, categories)
    requires Keeps(nodes0, nodes, ls[1])
    requires nodes0[a].values * nodes0[b].values == {}
    ensures InnerDone(nodes, nodes0, a, b, nodes0[a].ptrs, ls, categories)
  {
    var pa, pb := nodes0[a].ptrs, nodes0[b].ptrs;
    forall k | 0 <= k < |pa| ensures Wf(nodes, pa[k].child.value, ls[1..], categories) {
      Frame(nodes0, nodes, pa[k].child.value, ls[1..], categories);
    }
    forall x: byte | Edge(pa, x).Some?
      ensures EdgeMerged(nodes, nodes0, pa, pb, Edge(pa, x), x, |ls| - 2)
    {
      assert x in nodes0[a].values && x !in nodes0[a].values * nodes0[b].values;
    }
  }

  lemma Compacted(nodes: seq<Node>, new_: seq<Node>, nodes0: seq<Node>, a: nat, b: nat, pc: seq<Ptr>, r: seq<Ptr>,
      ls: seq<nat>, categories: nat)
    requires |ls| > 1 && a < |nodes0| && b < |nodes0|
    requires InnerDone(nodes, nodes0, a, b, pc, ls, categories)
    requires Rearranged(r, pc, nodes0[a].values)
    requires Keeps(nodes, new_, ls[1])
    ensures InnerDone(new_, nodes0, a, b, r, ls, categories)
  {
    forall k | 0 <= k < |r| && r[k].child.Some? ensures Wf(new_, r[k].child.value, ls[1..], categories) {
      var j :| 0 <= j < |pc| && pc[j] == r[k];
      Frame(nodes, new_, r[k].child.value, ls[1..], categories);
    }
    forall x: byte | Edge(nodes0[a].ptrs, x).Some?
      ensures EdgeMerged(new_, nodes0, nodes0[a].ptrs, nodes0[b].ptrs, Edge(r, x), x, |ls| - 2)
    {
      var e := Edge(pc, x);
      assert EdgeMerged(nodes, nodes0, nodes0[a].ptrs, nodes0[b].ptrs, e, x, |ls| - 2);
      Frame(nodes, new_, e.value, ls[1..], categories);
    }
  }

  /** Slots of C after the slots of B up to `m` were copied. */
  ghost predicate Copied(pc0: seq<Ptr>, pb: seq<Ptr>, pc: seq<Ptr>, values: set<byte>, m: nat) {
    && NoGaps(pc)
    && SlotsOk(pc, values)
    && (forall x: byte :: Edge(pc, x) ==
          if Edge(pc0, x).Some? then Edge(pc0, x) else if SlotOf(pb, x) < m then Edge(pb, x) else None)
  }

  lemma CopyStep(pc0: seq<Ptr>, pb: seq<Ptr>, pc: seq<Ptr>, values: set<byte>, values0: set<byte>, m: nat,
      bits: set<byte>)
    requires Copied(pc0, pb, pc, values, m) && m < |pb| && NoGaps(pb) && Disjoint(pb)
    requires Covers(pc0, values0) && bits == pb[m].values - values0
    ensures bits == {} ==> Copied(pc0, pb, pc, values, m + 1)
    ensures bits != {} ==> Copied(pc0, pb, AddedPtrs(pc, 0, pb[m].child.value, bits), values + bits, m + 1)
  {
    var child := pb[m].child.value;
    forall x: byte
      ensures x in pb[m].values <==> SlotOf(pb, x) == m
      ensures x in bits ==> Edge(pc, x).None?
      ensures x in pb[m].values && x !in bits ==> Edge(pc0, x).Some?
    {
      if x in pb[m].values { SlotIs(pb, x, m); }
    }
    if bits != {} {
      AddedOk(pc, values, 0, child, bits);
      AddedGrown(pc, 0, child, bits);
    }
  }

  lemma CopyEnd(pc0: seq<Ptr>, pb: seq<Ptr>, pc: seq<Ptr>, values: set<byte>, values0: set<byte>, valuesB: set<byte>)
    requires Copied(pc0, pb, pc, values, |pb|) && Covers(pc0, values0) && Covers(pb, valuesB)
    ensures values == values0 + valuesB
  {
    forall x: byte ensures x in values <==> x in values0 + valuesB {
      assert Edge(pc, x).Some? <==> Edge(pc0, x).Some? || Edge(pb, x).Some?;
    }
  }

  lemma NoneOutside(pc0: seq<Ptr>, pb: seq<Ptr>, values0: set<byte>, valuesB: set<byte>)
    requires NoGaps(pc0) && SlotsOk(pc0, values0) && Covers(pb, valuesB) && valuesB - values0 * valuesB == {}
    ensures Copied(pc0, pb, pc0, values0, |pb|)
  {
    assert forall x :: x in valuesB ==> x in values0 || x in valuesB - values0 * valuesB;
  }

  /** No reference to A is left: C is contained in B. */
  lemma ContainedInB(pa: seq<Ptr>, pb: seq<Ptr>, pc0: seq<Ptr>, pc: seq<Ptr>, values: set<byte>, valuesC: set<byte>)
    requires Covers(pa, values) && Covers(pc0, values) && Copied(pc0, pb, pc, valuesC, |pb|)
    requires forall x: byte :: Edge(pa, x).Some? ==> Edge(pc0, x) == Edge(pb, x)
    ensures SameEdges(pc, pb)
  {
    forall x: byte ensures Edge(pc, x) == Edge(pb, x) {
      assert Edge(pa, x).Some? <==> x in values;
      assert Edge(pc0, x).Some? <==> x in values;
    }
  }

  /** C before and after B's outside pointers were copied. */
  ghost predicate LastStep(mid: seq<Node>, nodes: seq<Node>, nodes0: seq<Node>, a: nat, b: nat, c: nat, ls: seq<nat>,
      categories: nat)
    requires |ls| > 1 && a < |nodes0| && b < |nodes0|
  {
    && c < |mid| && Keeps(nodes0, mid, ls[1])
    && mid[c].level == ls[0] && mid[c].mrt.None? && NoGaps(mid[c].ptrs)
    && InnerDone(mid, nodes0, a, b, mid[c].ptrs, ls, categories)
    && |nodes| == |mid| && nodes == mid[c := mid[c].(ptrs := nodes[c].ptrs, values := nodes[c].values)]
    && Copied(mid[c].ptrs, nodes0[b].ptrs, nodes[c].ptrs, nodes[c].values, |nodes0[b].ptrs|)
  }

  /** The merged node joins A and B ... */
  lemma FinishedJoins(mid: seq<Node>, nodes: seq<Node>, nodes0: seq<Node>, a: nat, b: nat, c: nat, ls: seq<nat>,
      categories: nat)
    requires |ls| > 1 && Wf(nodes0, a, ls, categories) && Wf(nodes0, b, ls, categories)
    requires LastStep(mid, nodes, nodes0, a, b, c, ls, categories)
    ensures JoinedTrie(nodes, c, nodes0, a, b, |ls| - 1)
  {
    forall x: byte
      ensures EdgeMerged(nodes, nodes0, nodes0[a].ptrs, nodes0[b].ptrs, Edge(nodes[c].ptrs, x), x, |ls| - 2)
    {
      FinishedEdge(mid, nodes, nodes0, a, b, c, ls, categories, x);
    }
    MergedJoins(nodes, nodes0, a, b, c, ls, categories);
  }

  /** ... and is well-formed. */
  lemma FinishedWf(mid: seq<Node>, nodes: seq<Node>, nodes0: seq<Node>, a: nat, b: nat, c: nat, ls: seq<nat>,
      categories: nat)
    requires |ls| > 1 && Wf(nodes0, a, ls, categories) && Wf(nodes0, b, ls, categories)
    requires LastStep(mid, nodes, nodes0, a, b, c, ls, categories)
    ensures Wf(nodes, c, ls, categories)
  {
    var pa, pc := nodes0[a].ptrs, nodes[c].ptrs;
    forall k | 0 <= k < |pc| ensures Wf(nodes, pc[k].child.value, ls[1..], categories) {
      var x :| x in pc[k].values;
      SlotIs(pc, x, k);
      FinishedEdge(mid, nodes, nodes0, a, b, c, ls, categories, x);
    }
    var y :| y in pa[0].values;
    SlotIs(pa, y, 0);
    FinishedEdge(mid, nodes, nodes0, a, b, c, ls, categories, y);
    assert pc != [];
  }

  lemma FinishedEdge(mid: seq<Node>, nodes: seq<Node>, nodes0: seq<Node>, a: nat, b: nat, c: nat, ls: seq<nat>,
      categories: nat, x: byte)
    requires |ls| > 1 && Wf(nodes0, a, ls, categories) && Wf(nodes0, b, ls, categories)
    requires LastStep(mid, nodes, nodes0, a, b, c, ls, categories)
    ensures Edge(nodes0[a].ptrs, x).Some? <==> Edge(mid[c].ptrs, x).Some?
    ensures EdgeMerged(nodes, nodes0, nodes0[a].ptrs, nodes0[b].ptrs, Edge(nodes[c].ptrs, x), x, |ls| - 2)
    ensures Edge(nodes[c].ptrs, x).Some? ==> Wf(nodes, Edge(nodes[c].ptrs, x).value, ls[1..], categories)
  {
    var pa, pb, pc0, pc := nodes0[a].ptrs, nodes0[b].ptrs, mid[c].ptrs, nodes[c].ptrs;
    var e := Edge(pc, x);
    assert Edge(pa, x).Some? <==> x in nodes0[a].values;
    assert Edge(pc0, x).Some? <==> x in nodes0[a].values;
    if Edge(pa, x).Some? {
      assert e == Edge(pc0, x) == pc0[SlotOf(pc0, x)].child;
      assert EdgeMerged(mid, nodes0, pa, pb, e, x, |ls| - 2);
      Frame(mid, nodes, e.value, ls[1..], categories);
    } else if e.Some? {
      EdgeOfWf(nodes0, b, ls, categories, x);
      Frame(nodes0, nodes, e.value, ls[1..], categories);
    }
  }

  /** A node with the same edges can be returned in place of C. */
  lemma Instead(nodes: seq<Node>, nodes0: seq<Node>, a: nat, b: nat, c: nat, r: nat, ls: seq<nat>, categories: nat)
    requires |ls| > 1 && c < |nodes| && r < |nodes|
    requires JoinedTrie(nodes, c, nodes0, a, b, |ls| - 1)
    requires SameEdges(nodes[c].ptrs, nodes[r].ptrs)
    ensures JoinedTrie(nodes, r, nodes0, a, b, |ls| - 1)
  {
    forall s: seq<byte> | |s| == |ls| - 1
      ensures Lookup(nodes, r, s) == Joined(Lookup(nodes0, a, s), Lookup(nodes0, b, s))
    {
      SameEdgesSameLookup(nodes, c, r, s);
    }
  }

  // ---------------------------------------------------------------- build context

  class Builder {
    const categories: nat
    var nodes: seq<Node>

    constructor (categories: nat)
      requires categories <= MAX_CATEGORIES
      ensures this.categories == categories && nodes == []
    {
      this.categories := categories;
      nodes := [];
    }

    method AllocNode(level: nat) returns (id: nat)
      modifies this
      ensures id == |old(nodes)| && nodes == old(nodes) + [Node(level, [], {}, None)]
    {
      id := |nodes|;
      nodes := nodes + [Node(level, [], {}, None)];
    }

    /** Add a pointer to node `id`, to the slot that has it already or to a free one. */
    method AddPtr(id: nat, minAdd: nat, child: nat, bits: set<byte>)
      requires id < |nodes|
      modifies this
      ensures nodes == old(nodes)[id := Added(old(nodes[id]), minAdd, child, bits)]
    {
      var ptrs := nodes[id].ptrs;
      var n := 0;
      while n < |ptrs|
        invariant 0 <= n <= |ptrs|
        invariant forall j :: 0 <= j < n ==> ptrs[j].child != Some(child)
        invariant nodes == old(nodes)
      {
        if ptrs[n].child == Some(child) {
          nodes := nodes[id := nodes[id].(ptrs := ptrs[n := ptrs[n].(values := ptrs[n].values + bits)],
                                          values := nodes[id].values + bits)];
          return;
        }
        n := n + 1;
      }
      n := minAdd;
      while n < |ptrs| && ptrs[n].child.Some?
        invariant minAdd <= n
        invariant forall j :: minAdd <= j < n && j < |ptrs| ==> ptrs[j].child.Some?
      {
        n := n + 1;
      }
      var slot := Ptr(bits, Some(child));
      nodes := nodes[id := nodes[id].(ptrs := if n < |ptrs| then ptrs[n := slot] else ptrs + [slot],
                                      values := nodes[id].values + bits)];
    }

    /** Duplicate a node. */
    method DupNode(id: nat) returns (c: nat)
      requires id < |nodes|
      modifies this
      ensures c == |old(nodes)| && nodes == old(nodes) + [old(nodes[id])]
    {
      c := |nodes|;
      nodes := nodes + [nodes[id]];
    }

    /** Merge two match nodes: reuse the better one, or make a mixed copy. */
    method ResolveLeaf(a: nat, b: nat) returns (c: nat)
      requires categories <= MAX_CATEGORIES
      requires a < |nodes| && b < |nodes| && nodes[a].mrt.Some? && nodes[b].mrt.Some?
      requires nodes[a].mrt.value.Valid(categories) && nodes[b].mrt.value.Valid(categories)
      modifies this
      ensures old(nodes) <= nodes && c < |nodes|
      ensures c == a || c == b ||
              (nodes[c].level == nodes[a].level && nodes[c].ptrs == nodes[a].ptrs && nodes[c].values == nodes[a].values)
      ensures nodes[c].mrt.Some? && nodes[c].mrt.value.Valid(categories)
      ensures nodes[c].mrt.value == Join(old(nodes[a].mrt.value), old(nodes[b].mrt.value))
    {
      hide Above, Mixed;
      var ma, mb := nodes[a].mrt.value, nodes[b].mrt.value;
      AboveBelow(ma, mb, categories);
      AboveBelow(mb, ma, categories);
      var someA, someB := Compare(ma, mb, categories);
      if !someB {
        return a;
      }
      if !someA {
        return b;
      }
      c := DupNode(a);
      var mc := Mix(ma, mb, categories);
      nodes := nodes[c := nodes[c].(mrt := Some(mc))];
    }

    /**
      Merge nodes A and B. At level 0 the result replaces A in place; below, a copy
      is made, and A or B is returned instead when the copy turns out to add nothing.
    */
    method Merge(a: nat, b: nat, level: nat, ghost ls: seq<nat>) returns (c: nat)
      requires categories <= MAX_CATEGORIES
      requires Wf(nodes, a, ls, categories) && Wf(nodes, b, ls, categories) && a != b
      requires level == 0 ==> |ls| > 1
      modifies this
      ensures |old(nodes)| <= |nodes|
      ensures forall i :: 0 <= i < |old(nodes)| && (level == 0 ==> i != a) ==> nodes[i] == old(nodes)[i]
      ensures level == 0 ==> c == a
      ensures Wf(nodes, c, ls, categories)
      ensures JoinedTrie(nodes, c, old(nodes), a, b, |ls| - 1)
      decreases |ls|, 6
    {
      ghost var nodes0 := nodes;
      if nodes[a].mrt.Some? {
        c := ResolveLeaf(a, b);
        return;
      }
      if level > 0 {
        c := DupNode(a);
      } else {
        c := a;
      }
      var aRefs, bRefs := MergeInner(a, b, c, level, nodes0, ls);
      if level > 0 {
        Frame(nodes0, nodes, a, ls, categories);
        Frame(nodes0, nodes, b, ls, categories);
        if bRefs == 0 {
          Instead(nodes, nodes0, a, b, c, a, ls, categories);
          c := a;
        } else if aRefs == 0 {
          Instead(nodes, nodes0, a, b, c, b, ls, categories);
          c := b;
        }
      }
    }

    /** Merge inner nodes A and B into C, which starts as A or as a copy of A. */
    method MergeInner(a: nat, b: nat, c: nat, level: nat, ghost nodes0: seq<Node>, ghost ls: seq<nat>)
      returns (aRefs: int, bRefs: nat)
      requires categories <= MAX_CATEGORIES
      requires |ls| > 1 && Wf(nodes0, a, ls, categories) && Wf(nodes0, b, ls, categories)
      requires nodes0 <= nodes && LoopFrame(nodes, nodes, nodes0, a, b, c, ls) && nodes[c] == nodes0[a]
      modifies this
      ensures |old(nodes)| <= |nodes| && forall i :: 0 <= i < |old(nodes)| && i != c ==> nodes[i] == old(nodes)[i]
      ensures Wf(nodes, c, ls, categories)
      ensures JoinedTrie(nodes, c, nodes0, a, b, |ls| - 1)
      ensures bRefs == 0 ==> SameEdges(nodes[c].ptrs, nodes0[a].ptrs)
      ensures aRefs == 0 ==> SameEdges(nodes[c].ptrs, nodes0[b].ptrs)
      decreases |ls|, 5
    {
      var intersect := nodes[c].values * nodes[b].values;
      var bOutside := nodes[b].values - intersect;
      aRefs, bRefs := MergeShared(a, b, c, level, intersect, nodes0, ls);
      ghost var mid := nodes;
      if bOutside != {} {
        bRefs := bRefs + 1;
        CopyOutside(c, b, intersect);
      } else {
        NoneOutside(nodes[c].ptrs, nodes0[b].ptrs, nodes0[a].values, nodes0[b].values);
      }
      assert LastStep(mid, nodes, nodes0, a, b, c, ls, categories);
      assert Wf(nodes, c, ls, categories) && JoinedTrie(nodes, c, nodes0, a, b, |ls| - 1) by {
        FinishedWf(mid, nodes, nodes0, a, b, c, ls, categories);
        FinishedJoins(mid, nodes, nodes0, a, b, c, ls, categories);
      }
      if aRefs == 0 {
        ContainedInB(nodes0[a].ptrs, nodes0[b].ptrs, mid[c].ptrs, nodes[c].ptrs, nodes0[a].values, nodes[c].values);
      }
    }

    /** The part of the merge that concerns values that A and B share. */
    method MergeShared(a: nat, b: nat, c: nat, level: nat, intersect: set<byte>, ghost nodes0: seq<Node>,
        ghost ls: seq<nat>)
      returns (aRefs: int, bRefs: nat)
      requires categories <= MAX_CATEGORIES
      requires |ls| > 1 && Wf(nodes0, a, ls, categories) && Wf(nodes0, b, ls, categories)
      requires nodes0 <= nodes && LoopFrame(nodes, nodes, nodes0, a, b, c, ls) && nodes[c] == nodes0[a]
      requires intersect == nodes0[a].values * nodes0[b].values
      modifies this
      ensures LoopFrame(old(nodes), nodes, nodes0, a, b, c, ls)
      ensures NoGaps(nodes[c].ptrs) && InnerDone(nodes, nodes0, a, b, nodes[c].ptrs, ls, categories)
      ensures bRefs == 0 ==> nodes[c] == nodes0[a]
      ensures aRefs == 0 ==> forall x: byte :: Edge(nodes0[a].ptrs, x).Some? ==>
        Edge(nodes[c].ptrs, x) == Edge(nodes0[b].ptrs, x)
      decreases |ls|, 4
    {
      aRefs, bRefs := |nodes[a].ptrs|, 0;
      if intersect == {} {
        NothingShared(nodes, nodes0, a, b, ls, categories);
        return;
      }
      aRefs, bRefs := MergeChildren(c, b, level, a, nodes0, ls);
      CompactBoth(a, b, c, old(nodes), nodes0, ls);
    }

    /** Compact the pointers of C and of B, which has no gaps. */
    method CompactBoth(ghost a: nat, b: nat, c: nat, ghost start: seq<Node>, ghost nodes0: seq<Node>,
        ghost ls: seq<nat>)
      requires |ls| > 1 && Wf(nodes0, a, ls, categories) && Wf(nodes0, b, ls, categories)
      requires LoopFrame(start, nodes, nodes0, a, b, c, ls)
      requires LoopInv(nodes, nodes0, a, b, nodes[c].ptrs, ls, categories, |nodes0[a].ptrs|, 0)
      modifies this
      ensures LoopFrame(start, nodes, nodes0, a, b, c, ls)
      ensures NoGaps(nodes[c].ptrs) && InnerDone(nodes, nodes0, a, b, nodes[c].ptrs, ls, categories)
      ensures Rearranged(nodes[c].ptrs, old(nodes[c].ptrs), nodes0[a].values)
      ensures NoGaps(old(nodes[c].ptrs)) ==> nodes[c] == old(nodes[c])
    {
      ghost var done := nodes;
      ChildrenMerged(nodes, nodes0, a, b, nodes[c].ptrs, ls, categories);
      CompactNode(c, nodes0[a].values);
      CompactNode(b, nodes0[b].values);
      Compacted(done, nodes, nodes0, a, b, done[c].ptrs, nodes[c].ptrs, ls, categories);
    }

    method CompactNode(id: nat, ghost values: set<byte>)
      requires id < |nodes| && SlotsOk(nodes[id].ptrs, values)
      modifies this
      ensures |nodes| == |old(nodes)| && nodes == old(nodes)[id := old(nodes[id]).(ptrs := nodes[id].ptrs)]
      ensures Rearranged(nodes[id].ptrs, old(nodes[id].ptrs), values) && NoGaps(nodes[id].ptrs)
      ensures NoGaps(old(nodes[id].ptrs)) ==> nodes == old(nodes)
    {
      var ptrs := CompactPtrs(nodes[id].ptrs, 0, values);
      nodes := nodes[id := nodes[id].(ptrs := ptrs)];
    }

    /** Copy pointers outside of the intersection from B to C. */
    method CopyOutside(c: nat, b: nat, intersect: set<byte>)
      requires b < |nodes| && c < |nodes| && b != c
      requires NoGaps(nodes[c].ptrs) && SlotsOk(nodes[c].ptrs, nodes[c].values) && NodeOk(nodes[b])
      requires intersect == nodes[c].values * nodes[b].values
      modifies this
      ensures |nodes| == |old(nodes)|
      ensures nodes == old(nodes)[c := old(nodes[c]).(ptrs := nodes[c].ptrs,
        values := old(nodes[c].values) + old(nodes[b].values))]
      ensures Copied(old(nodes[c].ptrs), old(nodes[b].ptrs), nodes[c].ptrs, nodes[c].values, |old(nodes[b].ptrs)|)
    {
      ghost var pc0, pb, values0 := nodes[c].ptrs, nodes[b].ptrs, nodes[c].values;
      for m := 0 to |nodes[b].ptrs|
        invariant |nodes| == |old(nodes)|
        invariant nodes == old(nodes)[c := old(nodes[c]).(ptrs := nodes[c].ptrs, values := nodes[c].values)]
        invariant Copied(pc0, pb, nodes[c].ptrs, nodes[c].values, m)
      {
        var bits := nodes[b].ptrs[m].values - intersect;
        SlotWithin(pb, nodes[b].values, m);
        assert bits == pb[m].values - values0;
        CopyStep(pc0, pb, nodes[c].ptrs, nodes[c].values, values0, m, bits);
        if bits != {} {
          AddPtr(c, 0, nodes[b].ptrs[m].child.value, bits);
        }
      }
      CopyEnd(pc0, pb, nodes[c].ptrs, nodes[c].values, values0, old(nodes[b].values));
    }

    /** The double loop over the pointers of C (a copy of A) and of B. */
    method MergeChildren(c: nat, b: nat, level: nat, ghost a: nat, ghost nodes0: seq<Node>, ghost ls: seq<nat>)
      returns (aRefs: int, bRefs: nat)
      requires categories <= MAX_CATEGORIES
      requires |ls| > 1 && Wf(nodes0, a, ls, categories) && Wf(nodes0, b, ls, categories)
      requires LoopFrame(nodes, nodes, nodes0, a, b, c, ls) && nodes[c] == nodes0[a]
      modifies this
      ensures LoopFrame(old(nodes), nodes, nodes0, a, b, c, ls)
      ensures LoopInv(nodes, nodes0, a, b, nodes[c].ptrs, ls, categories, |nodes0[a].ptrs|, 0)
      ensures bRefs == 0 ==> nodes[c] == nodes0[a]
      ensures aRefs == 0 ==> forall x: byte :: Edge(nodes0[a].ptrs, x).Some? ==>
        Edge(nodes[c].ptrs, x) == Edge(nodes0[b].ptrs, x)
      decreases |ls|, 3
    {
      var ptrsC := |nodes[c].ptrs|;
      aRefs, bRefs := ptrsC, 0;
      ghost var extra := 0;
      RefsStart(nodes0[a].ptrs, ptrsC);
      LoopStart(nodes, nodes0, a, b, ls, categories);
      for n := 0 to ptrsC
        invariant LoopFrame(old(nodes), nodes, nodes0, a, b, c, ls)
        invariant LoopInv(nodes, nodes0, a, b, nodes[c].ptrs, ls, categories, n, 0)
        invariant RefsOfA(nodes[c].ptrs, nodes0[b].ptrs, ptrsC, n, aRefs, extra)
        invariant bRefs == 0 ==> nodes[c].ptrs == nodes0[a].ptrs
      {
        aRefs, bRefs, extra := MergeSlot(c, b, level, n, ptrsC, aRefs, bRefs, a, extra, old(nodes), nodes0, ls);
      }
      if aRefs == 0 {
        NoRefsOfA(nodes[c].ptrs, nodes0[a].ptrs, nodes0[b].ptrs, nodes0[a].values, extra);
      }
    }

    /** One slot of C against all slots of B. */
    method MergeSlot(c: nat, b: nat, level: nat, n: nat, ptrsC: nat, aRefs0: int, bRefs0: nat,
                     ghost a: nat, ghost extra0: int, ghost start: seq<Node>,
                     ghost nodes0: seq<Node>, ghost ls: seq<nat>)
      returns (aRefs: int, bRefs: nat, ghost extra: int)
      requires categories <= MAX_CATEGORIES
      requires |ls| > 1 && Wf(nodes0, a, ls, categories) && Wf(nodes0, b, ls, categories)
      requires LoopFrame(start, nodes, nodes0, a, b, c, ls)
      requires ptrsC == |nodes0[a].ptrs| && n < ptrsC
      requires LoopInv(nodes, nodes0, a, b, nodes[c].ptrs, ls, categories, n, 0)
      requires RefsOfA(nodes[c].ptrs, nodes0[b].ptrs, ptrsC, n, aRefs0, extra0)
      requires bRefs0 == 0 ==> nodes[c].ptrs == nodes0[a].ptrs
      modifies this
      ensures LoopFrame(start, nodes, nodes0, a, b, c, ls)
      ensures LoopInv(nodes, nodes0, a, b, nodes[c].ptrs, ls, categories, n + 1, 0)
      ensures RefsOfA(nodes[c].ptrs, nodes0[b].ptrs, ptrsC, n + 1, aRefs, extra)
      ensures bRefs == 0 ==> nodes[c].ptrs == nodes0[a].ptrs
      decreases |ls|, 2
    {
      aRefs, bRefs, extra := aRefs0, bRefs0, extra0;
      RefsVisit(nodes[c].ptrs, nodes0[b].ptrs, ptrsC, n, aRefs, extra);
      if nodes[c].ptrs[n].child.None? {
        aRefs := aRefs - 1;
        ProgressEmpty(nodes, nodes0, nodes0[a].ptrs, nodes0[b].ptrs, nodes[c].ptrs, nodes0[a].values, ls[1..],
          categories, n);
        return;
      }
      for m := 0 to |nodes[b].ptrs|
        invariant LoopFrame(start, nodes, nodes0, a, b, c, ls)
        invariant LoopInv(nodes, nodes0, a, b, nodes[c].ptrs, ls, categories, n, m)
        invariant RefsOfA(nodes[c].ptrs, nodes0[b].ptrs, ptrsC, n + 1, aRefs, extra)
        invariant bRefs == 0 ==> nodes[c].ptrs == nodes0[a].ptrs
      {
        aRefs, bRefs, extra := MergeSlots(c, b, level, n, m, ptrsC, aRefs, bRefs, a, extra, start, nodes0, ls);
      }
      ProgressNext(nodes, nodes0, nodes0[a].ptrs, nodes0[b].ptrs, nodes[c].ptrs, nodes0[a].values, ls[1..], categories,
        n);
    }

    /** One slot pair (n, m) of the double loop. */
    method MergeSlots(c: nat, b: nat, level: nat, n: nat, m: nat, ptrsC: nat, aRefs0: int, bRefs0: nat,
                      ghost a: nat, ghost extra0: int, ghost start: seq<Node>,
                      ghost nodes0: seq<Node>, ghost ls: seq<nat>)
      returns (aRefs: int, bRefs: nat, ghost extra: int)
      requires categories <= MAX_CATEGORIES
      requires |ls| > 1 && Wf(nodes0, a, ls, categories) && Wf(nodes0, b, ls, categories)
      requires LoopFrame(start, nodes, nodes0, a, b, c, ls)
      requires ptrsC == |nodes0[a].ptrs| && n < ptrsC && m < |nodes0[b].ptrs|
      requires LoopInv(nodes, nodes0, a, b, nodes[c].ptrs, ls, categories, n, m)
      requires RefsOfA(nodes[c].ptrs, nodes0[b].ptrs, ptrsC, n + 1, aRefs0, extra0)
      requires bRefs0 == 0 ==> nodes[c].ptrs == nodes0[a].ptrs
      modifies this
      ensures LoopFrame(start, nodes, nodes0, a, b, c, ls)
      ensures LoopInv(nodes, nodes0, a, b, nodes[c].ptrs, ls, categories, n, m + 1)
      ensures RefsOfA(nodes[c].ptrs, nodes0[b].ptrs, ptrsC, n + 1, aRefs, extra)
      ensures bRefs == 0 ==> nodes[c].ptrs == nodes0[a].ptrs
      decreases |ls|, 1
    {
      hide Join, Above, Lookup;
      aRefs, bRefs, extra := aRefs0, bRefs0, extra0;
      var pc, ptrB := nodes[c].ptrs, nodes[b].ptrs[m];
      if pc[n].child == ptrB.child {
        SelfJoinedTrie(nodes, ptrB.child.value, ls[1..], categories);
        PairJoins(nodes, nodes, nodes0, a, b, pc, ls, categories, n, m, ptrB.child.value);
        ProgressSkip(nodes, nodes0, nodes0[a].ptrs, nodes0[b].ptrs, pc, nodes0[a].values, ls[1..], categories, n, m);
        return;
      }
      var intersect := pc[n].values * ptrB.values;
      if intersect == {} {
        assert forall x :: x in pc[n].values && x in ptrB.values ==> x in intersect;
        ProgressSkip(nodes, nodes0, nodes0[a].ptrs, nodes0[b].ptrs, pc, nodes0[a].values, ls[1..], categories, n, m);
        return;
      }
      var child := MergePair(c, b, level, n, m, a, start, nodes0, ls);
      if Some(child) == pc[n].child {
        ProgressSkip(nodes, nodes0, nodes0[a].ptrs, nodes0[b].ptrs, pc, nodes0[a].values, ls[1..], categories, n, m);
        return;
      }
      bRefs := bRefs + 1;
      Redirect(c, n, m, ptrsC, child, intersect, a, b, start, nodes0, ls);
      RefsMove(pc, nodes[c].ptrs, nodes0[b].ptrs, ptrsC, n, m, child, aRefs, extra);
      if Some(child) != ptrB.child {
        aRefs, extra := aRefs + 1, extra + 1;
      }
      if nodes[c].ptrs[n].child.None? {
        aRefs := aRefs - 1;
      }
    }

    /** Link C to the merged child for the common values, and take these from slot `n`. */
    method Redirect(c: nat, n: nat, ghost m: nat, ptrsC: nat, child: nat, intersect: set<byte>, ghost a: nat,
        ghost b: nat,
                    ghost start: seq<Node>, ghost nodes0: seq<Node>, ghost ls: seq<nat>)
      requires |ls| > 1 && Wf(nodes0, a, ls, categories) && Wf(nodes0, b, ls, categories)
      requires LoopFrame(start, nodes, nodes0, a, b, c, ls)
      requires ptrsC == |nodes0[a].ptrs| && n < ptrsC && m < |nodes0[b].ptrs|
      requires LoopInv(nodes, nodes0, a, b, nodes[c].ptrs, ls, categories, n, m)
      requires nodes[c].ptrs[n].child.Some? && nodes[c].ptrs[n].child != Some(child)
      requires intersect == nodes[c].ptrs[n].values * nodes0[b].ptrs[m].values && intersect != {}
      requires Wf(nodes, child, ls[1..], categories)
      requires forall x :: x in nodes[c].ptrs[n].values && x in nodes0[b].ptrs[m].values ==>
        EdgeDone(nodes, child, nodes0, nodes0[a].ptrs, nodes0[b].ptrs, x, |ls| - 2)
      modifies this
      ensures LoopFrame(start, nodes, nodes0, a, b, c, ls)
      ensures LoopInv(nodes, nodes0, a, b, nodes[c].ptrs, ls, categories, n, m + 1)
      ensures Moved(old(nodes[c].ptrs), nodes[c].ptrs, ptrsC, n, child, intersect)
    {
      ghost var before := nodes;
      MovePtr(c, ptrsC, n, child, intersect, nodes0[a].values);
      RedirectOk(start, before, nodes, nodes[c].ptrs, nodes0, a, b, c, ls, categories, n, m, child);
    }

    /** Redirect the transitions `bits` of slot `n` to `child`. */
    method MovePtr(c: nat, ptrsC: nat, n: nat, child: nat, bits: set<byte>, ghost values: set<byte>)
      requires c < |nodes| && SlotsOk(nodes[c].ptrs, values) && nodes[c].values == values
      requires n < ptrsC <= |nodes[c].ptrs| && nodes[c].ptrs[n].child.Some? && nodes[c].ptrs[n].child != Some(child)
      requires bits <= nodes[c].ptrs[n].values && bits != {}
      requires forall k :: ptrsC <= k < |nodes[c].ptrs| ==> nodes[c].ptrs[k].child.Some?
      modifies this
      ensures |nodes| == |old(nodes)| && nodes == old(nodes)[c := old(nodes[c]).(ptrs := nodes[c].ptrs)]
      ensures SlotsOk(nodes[c].ptrs, values) && Moved(old(nodes[c].ptrs), nodes[c].ptrs, ptrsC, n, child, bits)
    {
      hide SlotsOk, Moved, AddedPtrs, ExcludedPtrs;
      ghost var before, r := nodes[c], MovedPtrs(nodes[c].ptrs, ptrsC, n, child, bits);
      MovedFacts(before.ptrs, values, ptrsC, n, child, bits);
      AddPtr(c, ptrsC, child, bits);
      Exclude(c, n, bits);
      assert nodes[c] == before.(ptrs := r);
    }

    /** Remove `bits` from slot `n`; the slot becomes empty when nothing is left. */
    method Exclude(c: nat, n: nat, bits: set<byte>)
      requires c < |nodes| && n < |nodes[c].ptrs|
      modifies this
      ensures nodes == old(nodes)[c := old(nodes[c]).(ptrs := ExcludedPtrs(old(nodes[c].ptrs), n, bits))]
    {
      var ptrs := nodes[c].ptrs;
      var rest := ptrs[n].values - bits;
      nodes := nodes[c := nodes[c].(ptrs := ptrs[n := if rest == {} then Ptr({}, None) else Ptr(rest, ptrs[n].child)])];
    }

    /** The recursive merge of the children of one slot pair. */
    method MergePair(c: nat, b: nat, level: nat, n: nat, m: nat, ghost a: nat, ghost start: seq<Node>,
        ghost nodes0: seq<Node>, ghost ls: seq<nat>)
      returns (child: nat)
      requires categories <= MAX_CATEGORIES
      requires |ls| > 1 && Wf(nodes0, a, ls, categories) && Wf(nodes0, b, ls, categories)
      requires LoopFrame(start, nodes, nodes0, a, b, c, ls)
      requires Progress(nodes, nodes0, nodes0[a].ptrs, nodes0[b].ptrs, nodes[c].ptrs, nodes0[a].values, ls[1..],
        categories, n, m)
      requires n < |nodes[c].ptrs| && m < |nodes0[b].ptrs|
      requires nodes[c].ptrs[n].child.Some? && nodes[c].ptrs[n].child != nodes0[b].ptrs[m].child
      modifies this
      ensures LoopFrame(start, nodes, nodes0, a, b, c, ls) && nodes[c] == old(nodes[c])
      ensures Progress(nodes, nodes0, nodes0[a].ptrs, nodes0[b].ptrs, nodes[c].ptrs, nodes0[a].values, ls[1..],
        categories, n, m)
      ensures Wf(nodes, child, ls[1..], categories)
      ensures forall x :: x in nodes[c].ptrs[n].values && x in nodes0[b].ptrs[m].values ==>
        EdgeDone(nodes, child, nodes0, nodes0[a].ptrs, nodes0[b].ptrs, x, |ls| - 2)
      decreases |ls|, 0
    {
      ghost var before := nodes;
      var pc := nodes[c].ptrs;
      Frame(nodes0, nodes, nodes0[b].ptrs[m].child.value, ls[1..], categories);
      child := Merge(pc[n].child.value, nodes[b].ptrs[m].child.value, level + 1, ls[1..]);
      ProgressExtend(before, nodes, nodes0, nodes0[a].ptrs, nodes0[b].ptrs, pc, nodes0[a].values, ls[1..], categories,
        n, m);
      PairJoins(before, nodes, nodes0, a, b, pc, ls, categories, n, m, child);
    }
  }
}
