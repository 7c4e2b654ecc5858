/**
  Build-time tries of the ACL classifier, as an arena of nodes.

  A node pointer of the source is an index into the arena, so pointer identity,
  sharing between tries and the in-place update of a root are all visible.
  A 256-bit bitset is a `set<byte>`.
*/
module AclTrie {
  import opened Basics

  type byte = x: int | 0 <= x < 256

  const MAX_CATEGORIES: nat := 16

  /** One result and one priority for every category. */
  datatype Match = Match(results: seq<nat>, priority: seq<int>) {
    predicate Sized() { |results| == |priority| == MAX_CATEGORIES }

    /** Only the first `categories` entries are ever set; the others stay zero. */
    predicate Valid(categories: nat) {
      && Sized()
      && (forall i :: categories <= i < MAX_CATEGORIES ==> results[i] == 0 && priority[i] == 0)
    }
  }

  /** A transition: the input values that select it and the node it leads to. */
  datatype Ptr = Ptr(values: set<byte>, child: Option<nat>)

  /** `match_flag != 0` in the source is `mrt.Some?` here. */
  datatype Node = Node(level: nat, ptrs: seq<Ptr>, values: set<byte>, mrt: Option<Match>)

  // ---------------------------------------------------------------- semantics

  /** Index of the first slot that is in use and selected by `x`; `|ptrs|` if there is none. */
  function SlotOf(ptrs: seq<Ptr>, x: byte): (k: nat)
    ensures k <= |ptrs|
    ensures k < |ptrs| ==> ptrs[k].child.Some? && x in ptrs[k].values
    ensures forall j :: 0 <= j < k ==> ptrs[j].child.None? || x !in ptrs[j].values
  {
    if ptrs == [] then 0
    else if ptrs[0].child.Some? && x in ptrs[0].values then 0
    else 1 + SlotOf(ptrs[1..], x)
  }

  /** The child that input value `x` leads to. */
  function Edge(ptrs: seq<Ptr>, x: byte): Option<nat> {
    var k := SlotOf(ptrs, x);
    if k < |ptrs| then ptrs[k].child else None
  }

  /** The node reached from `id` on input `s`. */
  function Walk(nodes: seq<Node>, id: nat, s: seq<byte>): (r: Option<nat>)
    ensures r.Some? ==> r.value < |nodes|
    decreases |s|
  {
    if id >= |nodes| then None
    else if s == [] then Some(id)
    else match Edge(nodes[id].ptrs, s[0])
      case None => None
      case Some(e) => Walk(nodes, e, s[1..])
  }

  /** Meaning of a trie: the match results found on input `s`. */
  function Lookup(nodes: seq<Node>, id: nat, s: seq<byte>): Option<Match> {
    match Walk(nodes, id, s)
    case None => None
    case Some(e) => nodes[e].mrt
  }

  // ---------------------------------------------------------- well-formedness

  ghost predicate Disjoint(ptrs: seq<Ptr>) {
    forall i, j :: 0 <= i < j < |ptrs| ==> ptrs[i].values !! ptrs[j].values
  }

  ghost predicate DistinctChildren(ptrs: seq<Ptr>) {
    forall i, j :: 0 <= i < j < |ptrs| && ptrs[i].child.Some? ==> ptrs[i].child != ptrs[j].child
  }

  /** A slot is in use exactly when it has values. */
  ghost predicate UsedIffValues(ptrs: seq<Ptr>) {
    forall k :: 0 <= k < |ptrs| ==> (ptrs[k].child.Some? <==> ptrs[k].values != {})
  }

  ghost predicate NoGaps(ptrs: seq<Ptr>) {
    forall k :: 0 <= k < |ptrs| ==> ptrs[k].child.Some?
  }

  ghost predicate Covers(ptrs: seq<Ptr>, values: set<byte>) {
    forall x: byte :: x in values <==> SlotOf(ptrs, x) < |ptrs|
  }

  /** Slots that may have gaps: pairwise disjoint, covering exactly `values`. */
  ghost predicate SlotsOk(ptrs: seq<Ptr>, values: set<byte>) {
    && UsedIffValues(ptrs)
    && Disjoint(ptrs)
    && DistinctChildren(ptrs)
    && Covers(ptrs, values)
  }

  /** The invariant of an inner node at rest. */
  ghost predicate NodeOk(nd: Node) {
    nd.mrt.None? && NoGaps(nd.ptrs) && SlotsOk(nd.ptrs, nd.values)
  }

  /**
    `id` is the root of a trie of depth `|ls| - 1`: inner nodes satisfy the node
    invariant, every path ends in a match node, and the node at depth `i` has
    level `ls[i]`.
  */
  ghost predicate Wf(nodes: seq<Node>, id: nat, ls: seq<nat>, categories: nat)
    decreases |ls|
  {
    && id < |nodes|
    && |ls| > 0
    && nodes[id].level == ls[0]
    && if |ls| == 1 then
         nodes[id].ptrs == [] && nodes[id].mrt.Some? && nodes[id].mrt.value.Valid(categories)
       else
         && NodeOk(nodes[id])
         && nodes[id].ptrs != []
         && ls[0] < ls[1]
         && forall k :: 0 <= k < |nodes[id].ptrs| ==>
              Wf(nodes, nodes[id].ptrs[k].child.value, ls[1..], categories)
  }

  // -------------------------------------------------------- joining of results

  /** `a` has the higher priority in some category. */
  predicate Above(a: Match, b: Match) {
    exists i :: 0 <= i < |a.priority| && i < |b.priority| && a.priority[i] > b.priority[i]
  }

  /** The results of `b` where they have the higher priority, those of `a` elsewhere. */
  function Mixed(a: Match, b: Match): (c: Match)
    requires a.Sized() && b.Sized()
    ensures c.Sized()
    ensures forall i :: 0 <= i < MAX_CATEGORIES ==>
      (c.results[i], c.priority[i]) ==
        if a.priority[i] < b.priority[i] then (b.results[i], b.priority[i]) else (a.results[i], a.priority[i])
  {
    Match(seq(MAX_CATEGORIES, i requires 0 <= i < MAX_CATEGORIES =>
            if a.priority[i] < b.priority[i] then b.results[i] else a.results[i]),
          seq(MAX_CATEGORIES, i requires 0 <= i < MAX_CATEGORIES =>
            if a.priority[i] < b.priority[i] then b.priority[i] else a.priority[i]))
  }

  /**
    What two rules that both match give: the one that is nowhere below the other, `a` when they
    are equal, or the better of the two category by category.
  */
  function Join(a: Match, b: Match): Match {
    if !Above(b, a) then a else if !Above(a, b) then b else if a.Sized() && b.Sized() then Mixed(a, b) else a
  }

  /** The same for optional results: a missing side gives way to the other. */
  function Joined(a: Option<Match>, b: Option<Match>): Option<Match> {
    match (a, b)
    case (None, _) => b
    case (_, None) => a
    case (Some(ma), Some(mb)) => Some(Join(ma, mb))
  }

  /** Per category the join is one of `a`, `b` and has the higher of the two priorities. */
  lemma JoinIsHigher(a: Match, b: Match, i: nat)
    requires a.Sized() && b.Sized() && i < MAX_CATEGORIES
    ensures var c := Join(a, b);
      && c.Sized() && a.priority[i] <= c.priority[i] && b.priority[i] <= c.priority[i]
      && (|| (c.priority[i] == a.priority[i] && c.results[i] == a.results[i])
          || (c.priority[i] == b.priority[i] && c.results[i] == b.results[i]))
  {
  }

  /** Joining `b` once more changes nothing. */
  lemma JoinTwice(a: Match, b: Match)
    ensures Join(Join(a, b), b) == Join(a, b)
  {
    var c := Join(a, b);
    if Above(b, a) && Above(a, b) && a.Sized() && b.Sized() {
      assert !Above(b, c);
    }
  }

  /** The trie at `c` of `nodes` is the join of those at `a` and `b` of `nodes0`, on inputs of length `d`. */
  ghost predicate JoinedTrie(nodes: seq<Node>, c: nat, nodes0: seq<Node>, a: nat, b: nat, d: nat) {
    forall s: seq<byte> :: |s| == d ==>
      Lookup(nodes, c, s) == Joined(Lookup(nodes0, a, s), Lookup(nodes0, b, s))
  }

  lemma SlotIs(ptrs: seq<Ptr>, x: byte, k: nat)
    requires Disjoint(ptrs) && k < |ptrs| && ptrs[k].child.Some? && x in ptrs[k].values
    ensures SlotOf(ptrs, x) == k
  {
  }

  /**
    A trie does not see changes at lower levels nor appended nodes.
  */
  lemma {:induction false} Frame(old_: seq<Node>, new_: seq<Node>, id: nat, ls: seq<nat>, categories: nat)
    requires Wf(old_, id, ls, categories)
    requires |old_| <= |new_|
    requires forall i :: 0 <= i < |old_| && ls[0] <= old_[i].level ==> new_[i] == old_[i]
    ensures Wf(new_, id, ls, categories)
    ensures forall s: seq<byte> :: |s| == |ls| - 1 ==> Lookup(new_, id, s) == Lookup(old_, id, s)
    decreases |ls|
  {
    if |ls| > 1 {
      var ps := old_[id].ptrs;
      forall k | 0 <= k < |ps|
        ensures Wf(new_, ps[k].child.value, ls[1..], categories)
        ensures forall s: seq<byte> :: |s| == |ls| - 2 ==>
          Lookup(new_, ps[k].child.value, s) == Lookup(old_, ps[k].child.value, s)
      {
        Frame(old_, new_, ps[k].child.value, ls[1..], categories);
      }
      forall s: seq<byte> | |s| == |ls| - 1
        ensures Lookup(new_, id, s) == Lookup(old_, id, s)
      {
        var k := SlotOf(ps, s[0]);
        if k < |ps| {
          assert Lookup(new_, ps[k].child.value, s[1..]) == Lookup(old_, ps[k].child.value, s[1..]);
        }
      }
    }
  }
}
