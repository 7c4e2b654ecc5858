/**
  Generation of the run-time table from the build-time tries.

  The table and the match results, which share one allocation in the source,
  are two arrays here.
*/
module AclGen {
  import opened Basics
  import opened AclTrie
  import opened AclWord
  import opened AclNodes
  import opened AclRuns
  import opened AclLayout
  import opened AclStore
  import opened AclCount

  /** The result of "no match". */
  const Zero: Match := Match([0, 0, 0, 0, 0, 0, 0, 0, 0, 0, 0, 0, 0, 0, 0, 0],
    [0, 0, 0, 0, 0, 0, 0, 0, 0, 0, 0, 0, 0, 0, 0, 0])

  // ------------------------------------------------------------- what the table contains

  /** The word that input `x` leads to from a node. */
  ghost function EdgeWord(nd: Node, index: map<nat, Word>, x: byte): Word {
    match Edge(nd.ptrs, x)
    case None => NoMatch
    case Some(c) => if c in index then index[c] else NoMatch
  }

  /** The table holds what node `nd`, encoded by `v` and placed at `w`, says. */
  ghost predicate Generated(nd: Node, v: Info, w: Word, index: map<nat, Word>, table: seq<Word>, matches: seq<Match>) {
    && ChildrenIn(nd, index.Keys)
    && if v.kind == MATCH then
         nd.mrt.Some? && w.Addr() < |matches| && matches[w.Addr()] == nd.mrt.value
       else
         forall x: byte ::
           w.Addr() <= Target(w, x) < w.Addr() + Size(v) && Target(w, x) < |table| &&
             table[Target(w, x)] == EdgeWord(nd, index, x)
  }

  ghost predicate AllGenerated(nodes: seq<Node>, info: map<nat, Info>, index: map<nat, Word>, table: seq<Word>,
      matches: seq<Match>, pending: set<nat>) {
    forall i :: i in index && i in info && i < |nodes| && i !in pending ==>
      Generated(nodes[i], info[i], index[i], index, table, matches)
  }

  ghost predicate WordsOk(nodes: seq<Node>, info: map<nat, Info>, index: map<nat, Word>) {
    forall i :: i in index && i in info && i < |nodes| ==> WordOk(nodes[i], info[i], index[i])
  }

  ghost predicate Grown(a: map<nat, Word>, b: map<nat, Word>) {
    forall i :: i in a ==> i in b && b[i] == a[i]
  }

  /** The first area never matches, and the idle word leads to itself on zero. */
  ghost predicate Base(table: seq<Word>) {
    |table| > DFA_SIZE && table[DFA_SIZE] == Idle && forall t :: 0 <= t < DFA_SIZE ==> table[t] == NoMatch
  }

  lemma KnownKinds(nodes: seq<Node>, info: map<nat, Info>)
    requires Known(nodes, info)
    ensures KindsOk(info, |nodes|)
  {
    forall i | i in info ensures i < |nodes| && IsKind(info[i].kind) && info[i].fanout >= 1 {
      assert InfoOk(nodes[i], info[i]);
    }
  }

  /** The state of generation; nodes in `pending` have their place but not yet their transitions. */
  ghost predicate State(nodes: seq<Node>, info: map<nat, Info>, start: Indices, index: map<nat, Word>, next: Indices,
                        table: seq<Word>, matches: seq<Match>, pending: set<nat>)
  {
    && Known(nodes, info) && Closed(nodes, info, {})
    && Sized(info, start, |table|, |matches|, |nodes|)
    && Layout(info, index, start, next, |nodes|)
    && WordsOk(nodes, info, index)
    && Base(table) && matches[0] == Zero
    && AllGenerated(nodes, info, index, table, matches, pending)
  }

  // ---------------------------------------------------------------------------- framing

  /** A node stays generated when its storage is not written to. */
  lemma StaysGenerated(nd: Node, v: Info, w: Word, a: map<nat, Word>, b: map<nat, Word>,
                       table: seq<Word>, table': seq<Word>, matches: seq<Match>, matches': seq<Match>)
    requires Generated(nd, v, w, a, table, matches) && Grown(a, b)
    requires v.kind != MATCH ==>
      |table'| == |table| && forall t :: w.Addr() <= t < w.Addr() + Size(v) && t < |table| ==> table'[t] == table[t]
    requires v.kind == MATCH && w.Addr() < |matches| ==>
      w.Addr() < |matches'| && matches'[w.Addr()] == matches[w.Addr()]
    ensures Generated(nd, v, w, b, table', matches')
  {
    if v.kind != MATCH {
      forall x: byte ensures EdgeWord(nd, a, x) == EdgeWord(nd, b, x) {
        var k := SlotOf(nd.ptrs, x);
        assert k < |nd.ptrs| ==> nd.ptrs[k].child.value in a.Keys;
      }
      forall x: byte
        ensures w.Addr() <= Target(w, x) < w.Addr() + Size(v) && Target(w, x) < |table'| &&
          table'[Target(w, x)] == EdgeWord(nd, b, x)
      {
        assert table[Target(w, x)] == EdgeWord(nd, a, x);
      }
    }
  }

  /** Writing the storage of `id` keeps every other node generated. */
  lemma WriteKeeps(nodes: seq<Node>, info: map<nat, Info>, a: map<nat, Word>, b: map<nat, Word>, start: Indices,
      next: Indices,
                   table: seq<Word>, table': seq<Word>, matches: seq<Match>, id: nat, pending: set<nat>)
    requires AllGenerated(nodes, info, a, table, matches, pending) && Grown(a, b) && b.Keys == a.Keys + {id}
    requires Layout(info, b, start, next, |nodes|) && Sized(info, start, |table|, |matches|, |nodes|)
    requires id in info && info[id].kind != MATCH && SameOutside(table, table', b[id].Addr(), Size(info[id]))
    ensures AllGenerated(nodes, info, b, table', matches, pending + {id})
  {
    forall i | i in b && i in info && i < |nodes| && i !in pending + {id}
      ensures Generated(nodes[i], info[i], b[i], b, table', matches)
    {
      assert i in a.Keys;
      if info[i].kind != MATCH {
        StorageApart(info, b, start, next, |nodes|, |table|, |matches|, i, id);
      }
      StaysGenerated(nodes[i], info[i], b[i], a, b, table, table', matches, matches);
    }
  }

  lemma MatchKeeps(nodes: seq<Node>, info: map<nat, Info>, a: map<nat, Word>, b: map<nat, Word>, start: Indices,
      next: Indices,
                   table: seq<Word>, matches: seq<Match>, matches': seq<Match>, id: nat, pending: set<nat>)
    requires AllGenerated(nodes, info, a, table, matches, pending) && Grown(a, b) && b.Keys == a.Keys + {id}
    requires Layout(info, b, start, next, |nodes|)
    requires id in info && info[id].kind == MATCH && |matches'| == |matches|
    requires forall m :: 0 <= m < |matches| && m != b[id].Addr() ==> matches'[m] == matches[m]
    ensures AllGenerated(nodes, info, b, table, matches', pending + {id})
  {
    forall i | i in b && i in info && i < |nodes| && i !in pending + {id}
      ensures Generated(nodes[i], info[i], b[i], b, table, matches')
    {
      assert i in a.Keys;
      SizePositive(info[i]);
      SizePositive(info[id]);
      StaysGenerated(nodes[i], info[i], b[i], a, b, table, table, matches, matches');
    }
  }

  /** The first area is below all storage. */
  lemma BaseKeeps(table: seq<Word>, table': seq<Word>, addr: nat, sz: nat)
    requires Base(table) && SameOutside(table, table', addr, sz) && DFA_SIZE < addr
    ensures Base(table')
  {
  }

  /** The children's words tell the slots apart. */
  lemma TargetsSeparate(nd: Node, info: map<nat, Info>, index: map<nat, Word>, start: Indices, next: Indices, n: nat,
      target: seq<Word>)
    requires NodeOk(nd) && Layout(info, index, start, next, n) && start.match_ >= 1 && ChildrenIn(nd, index.Keys)
    requires |target| == |nd.ptrs| && forall k :: 0 <= k < |nd.ptrs| ==> target[k] == index[nd.ptrs[k].child.value]
    ensures Separate(target)
  {
    forall i, j | 0 <= i < j < |target| ensures target[i] != target[j] {
      assert nd.ptrs[i].child != nd.ptrs[j].child;
      DistinctWords(info, index, start, next, n, nd.ptrs[i].child.value, nd.ptrs[j].child.value);
    }
    forall i | 0 <= i < |target| ensures target[i] != NoMatch {
      NotNoMatch(info, index, start, next, n, nd.ptrs[i].child.value);
    }
  }

  lemma StoredIsGenerated(nd: Node, v: Info, w: Word, index: map<nat, Word>, table: seq<Word>, matches: seq<Match>,
      target: seq<Word>, dfa: seq<Word>)
    requires v.kind != MATCH && ChildrenIn(nd, index.Keys) && NoGaps(nd.ptrs)
    requires |target| == |nd.ptrs| && forall k :: 0 <= k < |nd.ptrs| ==> target[k] == index[nd.ptrs[k].child.value]
    requires IsDfa(dfa, nd.ptrs, target) && Stored(table, w, Size(v), dfa)
    ensures Generated(nd, v, w, index, table, matches)
  {
    forall x: byte ensures dfa[x] == EdgeWord(nd, index, x) {
      var k := SlotOf(nd.ptrs, x);
      assert dfa[x] == Entry(nd.ptrs, target, x);
      assert k < |nd.ptrs| ==> nd.ptrs[k].child.value in index.Keys;
    }
    forall x: byte
      ensures w.Addr() <= Target(w, x) < w.Addr() + Size(v) && Target(w, x) < |table| &&
        table[Target(w, x)] == EdgeWord(nd, index, x)
    {
      assert table[Target(w, x)] == dfa[x];
    }
  }

  // ------------------------------------------------------------- the steps of generation

  /** There is a place for a node that has none, inside the area of its kind. */
  lemma PlaceFree(nodes: seq<Node>, info: map<nat, Info>, start: Indices, index: map<nat, Word>, next: Indices,
                  table: seq<Word>, matches: seq<Match>, pending: set<nat>, id: nat)
    requires State(nodes, info, start, index, next, table, matches, pending) && id in info && id !in index
    ensures id < |nodes| && InfoOk(nodes[id], info[id])
    ensures var k := info[id].kind;
      start.At(k) <= next.At(k) < TYPE && next.At(k) + Size(info[id]) <= if k == MATCH then |matches| else |table|
    ensures Size(info[id]) >= 1 && start.match_ == 1
  {
    assert InfoOk(nodes[id], info[id]);
    Room(info, index, start, next, |nodes|, id);
    SizePositive(info[id]);
    PlaceInArea(info, start, |table|, |matches|, |nodes|, info[id].kind);
    Handed(info, index, start, next, |nodes|, info[id].kind);
  }

  lemma Handed(info: map<nat, Info>, index: map<nat, Word>, start: Indices, next: Indices, n: nat, k: nat)
    requires Filled(info, index, start, next, n) && IsKind(k)
    ensures start.At(k) <= next.At(k)
  {
    NonlinearLe(Unit(k), 0, Total(Done(info, index), k, n));
  }

  /** `w` is the word of node `id` at the next free place of its kind. */
  ghost predicate IsNext(nodes: seq<Node>, info: map<nat, Info>, next: Indices, id: nat, w: Word) {
    id in info && id < |nodes| && w.Type() == info[id].kind && w.Addr() == next.At(w.Type()) &&
      WordOk(nodes[id], info[id], w)
  }

  lemma WordsStep(nodes: seq<Node>, info: map<nat, Info>, index: map<nat, Word>, next: Indices, id: nat, w: Word)
    requires WordsOk(nodes, info, index) && IsNext(nodes, info, next, id, w)
    ensures WordsOk(nodes, info, index[id := w])
  {
  }

  lemma MatchStep(nodes: seq<Node>, info: map<nat, Info>, start: Indices, index: map<nat, Word>, next: Indices,
                  table: seq<Word>, matches: seq<Match>, pending: set<nat>, id: nat, w: Word)
    requires State(nodes, info, start, index, next, table, matches, pending) && id in info && id !in index
    requires IsNext(nodes, info, next, id, w) && info[id].kind == MATCH && nodes[id].mrt.Some? && nodes[id].ptrs == []
    ensures 1 <= w.Addr() < |matches|
    ensures State(nodes, info, start, index[id := w], next.Bump(MATCH, Size(info[id])),
                  table, matches[w.Addr() := nodes[id].mrt.value], pending)
  {
    PlaceFree(nodes, info, start, index, next, table, matches, pending, id);
    Place1(info, index, start, next, |nodes|, id, w);
    WordsStep(nodes, info, index, next, id, w);
    var index', matches' := index[id := w], matches[w.Addr() := nodes[id].mrt.value];
    MatchKeeps(nodes, info, index, index', start, next.Bump(MATCH, Size(info[id])), table, matches, matches', id,
      pending);
    assert Generated(nodes[id], info[id], w, index', table, matches');
  }

  lemma ReserveStep(nodes: seq<Node>, info: map<nat, Info>, start: Indices, index: map<nat, Word>, next: Indices,
                    table: seq<Word>, matches: seq<Match>, pending: set<nat>, id: nat, w: Word, table': seq<Word>)
    requires State(nodes, info, start, index, next, table, matches, pending) && id in info && id !in index
    requires IsNext(nodes, info, next, id, w) && info[id].kind != MATCH
    requires SameOutside(table, table', w.Addr(), Size(info[id]))
    ensures State(nodes, info, start, index[id := w], next.Bump(info[id].kind, Size(info[id])), table', matches,
      pending + {id})
  {
    PlaceFree(nodes, info, start, index, next, table, matches, pending, id);
    Place1(info, index, start, next, |nodes|, id, w);
    WordsStep(nodes, info, index, next, id, w);
    var index', next' := index[id := w], next.Bump(info[id].kind, Size(info[id]));
    WriteKeeps(nodes, info, index, index', start, next', table, table', matches, id, pending);
    Storage(info, index', start, next', |nodes|, |table|, |matches|, id);
    BaseKeeps(table, table', w.Addr(), Size(info[id]));
  }

  lemma ResolveStep(nodes: seq<Node>, info: map<nat, Info>, start: Indices, index: map<nat, Word>, next: Indices,
                    table: seq<Word>, matches: seq<Match>, pending: set<nat>, id: nat, table': seq<Word>)
    requires State(nodes, info, start, index, next, table, matches, pending + {id})
    requires id in index && id in info && id < |nodes| && info[id].kind != MATCH
    requires SameOutside(table, table', index[id].Addr(), Size(info[id]))
    requires Generated(nodes[id], info[id], index[id], index, table', matches)
    ensures State(nodes, info, start, index, next, table', matches, pending)
  {
    WriteKeeps(nodes, info, index, index, start, next, table, table', matches, id, pending + {id});
    Storage(info, index, start, next, |nodes|, |table|, |matches|, id);
    BaseKeeps(table, table', index[id].Addr(), Size(info[id]));
    assert pending + {id} + {id} == pending + {id};
  }

  lemma PlacedNode(nodes: seq<Node>, info: map<nat, Info>, start: Indices, index: map<nat, Word>, next: Indices,
                   table: seq<Word>, matches: seq<Match>, pending: set<nat>, id: nat)
    requires State(nodes, info, start, index, next, table, matches, pending) && id in index && id < |nodes| &&
      !IsLeaf(nodes[id])
    ensures id in info && InfoOk(nodes[id], info[id]) && info[id].kind != MATCH &&
      WordOk(nodes[id], info[id], index[id])
    ensures index[id].Type() == info[id].kind && index[id].Addr() + Size(info[id]) <= |table| && start.match_ >= 1
  {
    assert Placed(info[id], index[id], start, next);
    assert InfoOk(nodes[id], info[id]);
    Storage(info, index, start, next, |nodes|, |table|, |matches|, id);
  }

  ghost predicate ChildrenUpTo(nd: Node, ids: set<nat>, n: nat)
    requires n <= |nd.ptrs|
  {
    forall k :: 0 <= k < n && nd.ptrs[k].child.Some? ==> nd.ptrs[k].child.value in ids
  }

  lemma ChildrenGrow(nd: Node, a: map<nat, Word>, b: map<nat, Word>, n: nat)
    requires n < |nd.ptrs| && ChildrenUpTo(nd, a.Keys, n) && Grown(a, b)
    requires nd.ptrs[n].child.Some? ==> nd.ptrs[n].child.value in b
    ensures ChildrenUpTo(nd, b.Keys, n + 1)
  {
    forall k | 0 <= k < n + 1 && nd.ptrs[k].child.Some? ensures nd.ptrs[k].child.value in b.Keys {
      if k < n { assert nd.ptrs[k].child.value in a.Keys; }
    }
  }

  // ---------------------------------------------------------------------- the generator

  class Generator {
    const nodes: seq<Node>
    const categories: nat
    const info: map<nat, Info>
    const start: Indices
    const table: array<Word>
    const matches: array<Match>
    var indices: Indices
    var index: map<nat, Word>

    ghost predicate Valid(pending: set<nat>)
      reads this, table, matches
    {
      State(nodes, info, start, index, indices, table[..], matches[..], pending)
    }

    constructor (nodes: seq<Node>, categories: nat, info: map<nat, Info>, start: Indices, tableSize: nat,
      matchSize: nat)
      requires Known(nodes, info) && Closed(nodes, info, {}) && Sized(info, start, tableSize, matchSize, |nodes|)
      ensures this.nodes == nodes && this.categories == categories && this.info == info && this.start == start
      ensures table.Length == tableSize && matches.Length == matchSize && fresh(table) && fresh(matches)
      ensures index == map[] && indices == start && Valid({})
    {
      this.nodes, this.categories, this.info, this.start := nodes, categories, info, start;
      var t := new Word[tableSize](_ => Word(0, 0));
      var m := new Match[matchSize](_ => Zero);
      table, matches := t, m;
      indices, index := start, map[];
      new;
      t[DFA_SIZE] := Idle;
      for n := 0 to DFA_SIZE
        modifies t
        invariant t.Length > DFA_SIZE && t[DFA_SIZE] == Idle && forall k :: 0 <= k < n ==> t[k] == NoMatch
      {
        t[n] := NoMatch;
      }
      KnownKinds(nodes, info);
      NothingPlaced(info, start, |nodes|);
    }

    static lemma NothingPlaced(info: map<nat, Info>, start: Indices, n: nat)
      requires KindsOk(info, n)
      ensures Layout(info, map[], start, start, n)
    {
      assert Done(info, map[]) == map[];
      forall k | IsKind(k) ensures start.At(k) == start.At(k) + Unit(k) * Total(map[], k, n) {
        EmptyTotal(k, n);
      }
    }

    static lemma {:induction false} EmptyTotal(kind: nat, n: nat)
      ensures Total(map[], kind, n) == 0
    {
      if n > 0 {
        EmptyTotal(kind, n - 1);
      }
    }

    /** The word that a node gets when it is placed at the next free place of its kind. */
    method WordFor(id: nat) returns (w: Word)
      requires id in info && id < |nodes| && InfoOk(nodes[id], info[id]) && (IsLeaf(nodes[id]) || NodeOk(nodes[id]))
      requires indices.At(info[id].kind) < TYPE
      ensures w.Type() == info[id].kind && w.Addr() == indices.At(info[id].kind) && WordOk(nodes[id], info[id], w)
    {
      var v := info[id];
      var addr := indices.At(v.kind);
      if v.kind == QRANGE {
        w := RangeNode(nodes[id], v, addr);
      } else if v.kind == DFA {
        GroupsKnown(nodes[id], v);
        w := Word(GroupBits(v.gr), DFA * TYPE + addr);
        WordParts(w.hi, DFA, addr);
      } else if v.kind == SINGLE {
        w := Word(QuadSingle, SINGLE * TYPE + addr);
        WordParts(w.hi, SINGLE, addr);
      } else {
        w := Word(0, MATCH * TYPE + addr);
        WordParts(w.hi, MATCH, addr);
        assert IsKind(v.kind);
      }
    }

    /** First half of `acl_gen_node` for a match node: store its results. */
    method AllocateMatch(id: nat, ghost pending: set<nat>)
      requires Valid(pending) && id in info && id !in index && info[id].kind == MATCH && nodes[id].mrt.Some? &&
        nodes[id].ptrs == []
      modifies this, matches
      ensures Valid(pending)
      ensures Grown(old(index), index) && id in index
    {
      hide State;
      PlaceFree(nodes, info, start, index, indices, table[..], matches[..], pending, id);
      var w := WordFor(id);
      MatchStep(nodes, info, start, index, indices, table[..], matches[..], pending, id, w);
      ghost var results := matches[..][w.Addr() := nodes[id].mrt.value];
      matches[w.Addr()] := nodes[id].mrt.value;
      index, indices := index[id := w], indices.Bump(MATCH, Size(info[id]));
      assert matches[..] == results;
    }

    /** First half of `acl_gen_node` for a node with transitions: reserve the storage and fill it with "no match". */
    method Allocate(id: nat, ghost pending: set<nat>)
      requires Valid(pending) && id in info && id !in index && info[id].kind != MATCH && NodeOk(nodes[id])
      modifies this, table
      ensures Valid(pending + {id})
      ensures Grown(old(index), index) && id in index
    {
      hide State;
      ghost var before := table[..];
      PlaceFree(nodes, info, start, index, indices, table[..], matches[..], pending, id);
      var w := WordFor(id);
      Clear(table, w.Addr(), Size(info[id]));
      ReserveStep(nodes, info, start, index, indices, before, matches[..], pending, id, w, table[..]);
      index, indices := index[id := w], indices.Bump(info[id].kind, Size(info[id]));
    }

    /** Second half of `acl_gen_node`: the children have their places, store the transitions. */
    method Resolve(id: nat, ghost pending: set<nat>)
      requires Valid(pending + {id}) && id in index && id < |nodes| && NodeOk(nodes[id]) && !IsLeaf(nodes[id])
      requires ChildrenIn(nodes[id], index.Keys)
      modifies table
      ensures Valid(pending)
    {
      ghost var before := table[..];
      var nd := nodes[id];
      PlacedNode(nodes, info, start, index, indices, before, matches[..], pending + {id}, id);
      var target := Targets(nd);
      TargetsSeparate(nd, info, index, start, indices, |nodes|, target);
      ghost var dfa := Store(table, nd, info[id], index[id], target);
      StoredIsGenerated(nd, info[id], index[id], index, table[..], matches[..], target, dfa);
      ResolveStep(nodes, info, start, index, indices, before, matches[..], pending, id, table[..]);
    }

    method Targets(nd: Node) returns (target: seq<Word>)
      requires NoGaps(nd.ptrs) && ChildrenIn(nd, index.Keys)
      ensures |target| == |nd.ptrs| && forall k :: 0 <= k < |nd.ptrs| ==> target[k] == index[nd.ptrs[k].child.value]
    {
      target := [];
      for k := 0 to |nd.ptrs|
        invariant |target| == k && forall j :: 0 <= j < k ==> target[j] == index[nd.ptrs[j].child.value]
      {
        target := target + [index[nd.ptrs[k].child.value]];
      }
    }

    /** `acl_gen_node`. */
    method GenNode(id: nat, ghost ls: seq<nat>, ghost pending: set<nat>)
      requires Wf(nodes, id, ls, categories) && Valid(pending) && Below(nodes, pending, nodes[id].level) && id in info
      modifies this, table, matches
      ensures Valid(pending) && id in index && Grown(old(index), index)
      decreases |ls|, 1
    {
      if id in index {
        return;
      }
      assert InfoOk(nodes[id], info[id]);
      if info[id].kind == MATCH {
        AllocateMatch(id, pending);
      } else {
        Allocate(id, pending);
        GenChildren(id, ls, pending);
        Resolve(id, pending);
      }
    }

    method GenChildren(id: nat, ghost ls: seq<nat>, ghost pending: set<nat>)
      requires Wf(nodes, id, ls, categories) && |ls| > 1 && Valid(pending + {id}) &&
        Below(nodes, pending, nodes[id].level) && id in info
      modifies this, table, matches
      ensures Valid(pending + {id}) && Grown(old(index), index) && ChildrenIn(nodes[id], index.Keys)
      decreases |ls|, 0
    {
      for n := 0 to |nodes[id].ptrs|
        invariant Valid(pending + {id}) && Grown(old(index), index)
        invariant ChildrenUpTo(nodes[id], index.Keys, n)
      {
        ghost var before := index;
        assert ChildrenIn(nodes[id], info.Keys);
        GenNode(nodes[id].ptrs[n].child.value, ls[1..], pending + {id});
        ChildrenGrow(nodes[id], before, index, n);
      }
    }
  }

  lemma PlaceInArea(info: map<nat, Info>, start: Indices, tableSize: nat, matchSize: nat, n: nat, kind: nat)
    requires Sized(info, start, tableSize, matchSize, n) && IsKind(kind)
    ensures start.At(kind) + Unit(kind) * Total(info, kind, n) <= if kind == MATCH then matchSize else tableSize
    ensures kind == MATCH ==> start.At(kind) == 1
  {
  }

  method Clear(table: array<Word>, addr: nat, sz: nat)
    requires addr + sz <= table.Length
    modifies table
    ensures SameOutside(old(table[..]), table[..], addr, sz)
  {
    for n := 0 to sz
      invariant SameOutside(old(table[..]), table[..], addr, sz)
    {
      table[addr + n] := NoMatch;
    }
  }

  lemma GroupsKnown(nd: Node, v: Info)
    requires v.kind == DFA && InfoOk(nd, v) && NodeOk(nd)
    ensures GroupsOk(v.gr)
  {
    SlotsSeparate(nd.ptrs, nd.values);
    assert Fits(v, DfaOf(nd.ptrs, Slots(|nd.ptrs|)));
  }

  /** The boundaries are found with slot numbers, before the children are placed. */
  method RangeNode(nd: Node, v: Info, addr: nat) returns (w: Word)
    requires v.kind == QRANGE && InfoOk(nd, v) && NodeOk(nd) && addr < TYPE
    ensures w.Type() == QRANGE && w.Addr() == addr && RangeWord(nd.ptrs, w.hi)
  {
    SlotsSeparate(nd.ptrs, nd.values);
    var slots := Slots(|nd.ptrs|);
    var dfa := FillDfa(nd.ptrs, slots);
    assert Fits(v, dfa);
    var entries, bounds := FillRanges(dfa);
    RangeWordOf(nd.ptrs, slots, dfa);
    w := Word(QuadBits(Padded(bounds)), QRANGE * TYPE + addr);
    WordParts(w.hi, QRANGE, addr);
  }
}
