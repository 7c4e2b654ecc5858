/**
  The layout of the run-time table: which node is encoded how, where its
  transitions are stored, and that no two nodes share storage.
*/
module AclLayout {
  import opened Basics
  import opened AclTrie
  import opened AclWord
  import opened AclNodes
  import opened AclRuns

  /** Node type, storage units and group numbers, as determined before the table is laid out. */
  datatype Info = Info(kind: nat, fanout: nat, gr: seq<nat>)

  /** Entries of the table per unit of `fanout`. */
  function Unit(kind: nat): nat { if kind == DFA then GROUP_SIZE else 1 }

  function Size(v: Info): nat { Unit(v.kind) * v.fanout }

  // -------------------------------------------------------------- choice of node type

  predicate IsLeaf(nd: Node) { nd.mrt.Some? || nd.ptrs == [] }

  /** The encoding `v` can hold the transitions `dfa`. */
  ghost predicate Fits(v: Info, dfa: seq<Word>)
    requires |dfa| == DFA_SIZE
  {
    if v.kind == DFA then SharesOnlyEqual(dfa, v.gr) && forall i :: 0 <= i < 4 ==> v.gr[i] < v.fanout
    else v.fanout == |Entries(dfa, DFA_SIZE)| <= if v.kind == SINGLE then 1 else QUAD_MAX
  }

  ghost predicate InfoOk(nd: Node, v: Info) {
    && v.fanout >= 1
    && if IsLeaf(nd) then v.kind == MATCH && v.fanout == 1
       else
         && v.kind in {DFA, SINGLE, QRANGE}
         && forall target: seq<Word>, dfa: seq<Word> ::
              |target| == |nd.ptrs| && Separate(target) && IsDfa(dfa, nd.ptrs, target) ==> Fits(v, dfa)
  }

  /** Before its children are placed, a node is described with slot numbers for targets. */
  function Slots(n: nat): (t: seq<Word>)
    ensures |t| == n && forall k :: 0 <= k < n ==> t[k] == Word(0, k)
  {
    seq(n, (k: nat) => Word(0, k))
  }

  ghost function FirstBytes(n: nat): (u: set<byte>)
    requires n <= 256
    ensures |u| == n && forall x: byte :: x in u <==> x < n
  {
    if n == 0 then {} else FirstBytes(n - 1) + {n - 1}
  }

  lemma {:induction false} SlotCount(ptrs: seq<Ptr>, u: set<byte>)
    requires Disjoint(ptrs) && forall k :: 0 <= k < |ptrs| ==> ptrs[k].values != {} && ptrs[k].values <= u
    ensures |ptrs| <= |u|
  {
    if ptrs != [] {
      var n := |ptrs| - 1;
      var v := u - ptrs[n].values;
      assert v < u by {
        var x :| x in ptrs[n].values;
        assert x in u && x !in v;
      }
      SubsetSmaller(v, u);
      SlotCount(ptrs[..n], v);
    }
  }

  lemma SubsetSmaller(v: set<byte>, u: set<byte>)
    requires v < u
    ensures |v| < |u|
  {
    var x :| x in u && x !in v;
    assert v <= u - {x};
    SubsetCard(v, u - {x});
  }

  lemma {:induction false} SubsetCard(v: set<byte>, u: set<byte>)
    requires v <= u
    ensures |v| <= |u|
  {
    if v != {} {
      var x :| x in v;
      SubsetCard(v - {x}, u - {x});
    }
  }

  lemma SlotsSeparate(ptrs: seq<Ptr>, values: set<byte>)
    requires SlotsOk(ptrs, values) && NoGaps(ptrs)
    ensures Separate(Slots(|ptrs|))
  {
    SlotCount(ptrs, FirstBytes(256));
  }

  /** The smallest encoding for a number of runs. */
  function KindFor(runs: nat): nat { if runs == 1 then SINGLE else if runs <= QUAD_MAX then QRANGE else DFA }

  /** The node has this many runs, whichever separate targets its slots get. */
  ghost predicate HasRuns(nd: Node, runs: nat) {
    forall target: seq<Word>, dfa: seq<Word> ::
      |target| == |nd.ptrs| && Separate(target) && IsDfa(dfa, nd.ptrs, target) ==> |Entries(dfa, DFA_SIZE)| == runs
  }

  /** The different groups of 64 transitions. */
  ghost function Different(dfa: seq<Word>): set<seq<Word>>
    requires |dfa| == DFA_SIZE
  {
    Members(Blocks(dfa))
  }

  ghost function Members<T>(s: seq<T>): set<T> { set x | x in s }

  /**
    Words of the table that a node takes: none for a match, all 256 transitions for a root, one for each run if there
    are up to five, and else the different ones of its four groups of 64 transitions.
  */
  ghost function WordsFor(nd: Node, root: bool): nat {
    if IsLeaf(nd) then 0
    else if root then 256
    else
      var dfa := DfaOf(nd.ptrs, Slots(|nd.ptrs|));
      var runs := |Entries(dfa, DFA_SIZE)|;
      if runs <= 5 then runs else 64 * |Different(dfa)|
  }

  /** `v` has the size that the node takes. */
  ghost predicate SizeIs(nd: Node, root: bool, v: Info) {
    if IsLeaf(nd) then v == Info(MATCH, 1, []) else v.kind != MATCH && Size(v) == WordsFor(nd, root)
  }

  lemma {:induction false} BelowCount(n: nat) returns (s: set<nat>)
    ensures |s| == n && forall k: nat :: k in s <==> k < n
  {
    if n == 0 {
      s := {};
    } else {
      s := BelowCount(n - 1);
      s := s + {n - 1};
    }
  }

  lemma MembersSnoc<T>(s: seq<T>)
    requires s != []
    ensures Members(s) == Members(s[..|s| - 1]) + {s[|s| - 1]}
  {
    assert s == s[..|s| - 1] + [s[|s| - 1]];
  }

  /** Equal numbers for equal groups: as many of the one as of the other. */
  lemma {:induction false} NumbersCount<T>(groups: seq<T>, gr: seq<nat>)
    requires |groups| == |gr|
    requires forall i, j :: 0 <= i < |gr| && 0 <= j < |gr| ==> (gr[i] == gr[j] <==> groups[i] == groups[j])
    ensures |Members(groups)| == |Members(gr)|
  {
    if gr != [] {
      var n := |gr| - 1;
      NumbersCount(groups[..n], gr[..n]);
      MembersSnoc(groups);
      MembersSnoc(gr);
      SeenBefore(groups, gr, n);
    }
  }

  lemma SeenBefore<T>(groups: seq<T>, gr: seq<nat>, n: nat)
    requires |groups| == |gr| && n < |gr|
    requires forall i :: 0 <= i < n ==> (gr[i] == gr[n] <==> groups[i] == groups[n])
    ensures groups[n] in groups[..n] <==> gr[n] in gr[..n]
  {
    if groups[n] in groups[..n] {
      var i :| 0 <= i < n && groups[..n][i] == groups[n];
      assert gr[..n][i] == gr[n];
    }
    if gr[n] in gr[..n] {
      var i :| 0 <= i < n && gr[..n][i] == gr[n];
      assert groups[..n][i] == groups[n];
    }
  }

  lemma DifferentCounted(dfa: seq<Word>, gr: seq<nat>, count: nat)
    requires SharesOnlyEqual(dfa, gr)
    requires forall i, j :: 0 <= i < 4 && 0 <= j < 4 && SameBlock(dfa, i, j) ==> gr[i] == gr[j]
    requires (forall i :: 0 <= i < 4 ==> gr[i] < count) && forall k :: 0 <= k < count ==> k in gr
    ensures |Different(dfa)| == count
  {
    hide SameBlock;
    NumbersCount(Blocks(dfa), gr);
    var s := BelowCount(count);
    assert Members(gr) == s;
  }

  lemma ForcedOk(nd: Node)
    requires !IsLeaf(nd)
    ensures InfoOk(nd, Info(DFA, 4, [0, 1, 2, 3]))
  {
  }

  lemma RangesOk(nd: Node, runs: nat)
    requires !IsLeaf(nd) && NodeOk(nd) && HasRuns(nd, runs) && runs <= QUAD_MAX
    ensures InfoOk(nd, Info(KindFor(runs), runs, []))
  {
    AtLeastOneRun(nd, runs);
  }

  /** Part of `acl_count_trie_types`: the encoding for one node. */
  method Classify(nd: Node, force: bool) returns (v: Info)
    requires IsLeaf(nd) || NodeOk(nd)
    ensures InfoOk(nd, v)
    ensures SizeIs(nd, force, v)
    ensures force && !IsLeaf(nd) ==> v == Info(DFA, 4, [0, 1, 2, 3])
    ensures !force && !IsLeaf(nd) ==> exists runs: nat :: HasRuns(nd, runs) && v.kind == KindFor(runs)
  {
    hide HasRuns, NodeOk, Entries, Different;
    if nd.mrt.Some? || nd.ptrs == [] {
      return Info(MATCH, 1, []);
    }
    var fanout := Fanout(nd);
    RunsOfSlots(nd, fanout);
    if force {
      v := Info(DFA, 4, [0, 1, 2, 3]);
      ForcedOk(nd);
    } else if fanout == 1 {
      v := Info(SINGLE, fanout, []);
      RangesOk(nd, fanout);
    } else if fanout <= QUAD_MAX {
      v := Info(QRANGE, fanout, []);
      RangesOk(nd, fanout);
    } else {
      v := ClassifyDfa(nd);
    }
  }

  method Fanout(nd: Node) returns (fanout: nat)
    requires NodeOk(nd)
    ensures HasRuns(nd, fanout)
  {
    fanout := CountFanout(nd.ptrs, nd.values);
  }

  lemma RunsOfSlots(nd: Node, runs: nat)
    requires NodeOk(nd) && HasRuns(nd, runs)
    ensures |Entries(DfaOf(nd.ptrs, Slots(|nd.ptrs|)), DFA_SIZE)| == runs
  {
    SlotsSeparate(nd.ptrs, nd.values);
  }

  ghost function DfaOf(ptrs: seq<Ptr>, target: seq<Word>): (dfa: seq<Word>)
    requires |target| == |ptrs|
    ensures IsDfa(dfa, ptrs, target)
  {
    seq(DFA_SIZE, (x: nat) requires x < DFA_SIZE => Entry(ptrs, target, x))
  }

  lemma AtLeastOneRun(nd: Node, fanout: nat)
    requires NodeOk(nd) && HasRuns(nd, fanout)
    ensures fanout >= 1
  {
    SlotsSeparate(nd.ptrs, nd.values);
    var slots := Slots(|nd.ptrs|);
    var dfa := DfaOf(nd.ptrs, slots);
    BoundsBelow(dfa, DFA_SIZE);
  }

  /** The groups are numbered before the targets are known; they stay valid once they are. */
  method ClassifyDfa(nd: Node) returns (v: Info)
    requires !IsLeaf(nd) && NodeOk(nd)
    ensures InfoOk(nd, v) && v.kind == DFA && v.fanout == |Different(DfaOf(nd.ptrs, Slots(|nd.ptrs|)))|
  {
    SlotsSeparate(nd.ptrs, nd.values);
    var slots := Slots(|nd.ptrs|);
    var dfa := FillDfa(nd.ptrs, slots);
    var gr, count := CountGroups64(dfa);
    v := Info(DFA, count, gr);
    assert dfa == DfaOf(nd.ptrs, slots);
    DifferentCounted(dfa, gr, count);
    forall target: seq<Word>, d: seq<Word> | |target| == |nd.ptrs| && Separate(target) && IsDfa(d, nd.ptrs, target)
      ensures Fits(v, d)
    {
      ShapeOfSlots(nd.ptrs, slots, target, dfa, d);
      ShapeShares(dfa, d, gr);
    }
  }

  // --------------------------------------------------------------------------- totals

  /** Storage units of one kind over the nodes below `n`. */
  ghost function Total(info: map<nat, Info>, kind: nat, n: nat): nat {
    if n == 0 then 0
    else Total(info, kind, n - 1) + if n - 1 in info && info[n - 1].kind == kind then info[n - 1].fanout else 0
  }

  lemma {:induction false} TotalAdd(info: map<nat, Info>, i: nat, v: Info, kind: nat, n: nat)
    requires i !in info
    ensures Total(info[i := v], kind, n) == Total(info, kind, n) + if i < n && v.kind == kind then v.fanout else 0
  {
    if n > 0 {
      TotalAdd(info, i, v, kind, n - 1);
    }
  }

  ghost predicate Within(some: map<nat, Info>, all: map<nat, Info>) {
    forall i :: i in some ==> i in all && all[i] == some[i]
  }

  lemma {:induction false} TotalWithin(some: map<nat, Info>, all: map<nat, Info>, kind: nat, n: nat)
    requires Within(some, all)
    ensures Total(some, kind, n) <= Total(all, kind, n)
  {
    if n > 0 {
      TotalWithin(some, all, kind, n - 1);
    }
  }

  // --------------------------------------------------------------------------- placing

  /** Next free place of each kind; for match nodes a place is a result number. */
  datatype Indices = Indices(dfa: nat, quad: nat, single: nat, match_: nat) {
    function At(kind: nat): nat {
      if kind == DFA then dfa else if kind == QRANGE then quad else if kind == SINGLE then single else match_
    }

    function Bump(kind: nat, sz: nat): Indices {
      if kind == DFA then this.(dfa := dfa + sz)
      else if kind == QRANGE then this.(quad := quad + sz)
      else if kind == SINGLE then this.(single := single + sz)
      else this.(match_ := match_ + sz)
    }
  }

  predicate IsKind(kind: nat) { kind == DFA || kind == QRANGE || kind == SINGLE || kind == MATCH }

  ghost predicate KindsOk(info: map<nat, Info>, n: nat) {
    forall i :: i in info ==> i < n && IsKind(info[i].kind) && info[i].fanout >= 1
  }

  ghost predicate Placed(v: Info, w: Word, start: Indices, next: Indices) {
    w.Type() == v.kind && start.At(v.kind) <= w.Addr() && w.Addr() + Size(v) <= next.At(v.kind)
  }

  ghost predicate AllPlaced(info: map<nat, Info>, index: map<nat, Word>, start: Indices, next: Indices) {
    forall i :: i in index ==> i in info && Placed(info[i], index[i], start, next)
  }

  /** Storage of nodes of the same kind does not overlap. */
  ghost predicate Apart(info: map<nat, Info>, index: map<nat, Word>) {
    forall i, j :: i in index && j in index && i in info && j in info && i != j && info[i].kind == info[j].kind ==>
      || index[i].Addr() + Size(info[i]) <= index[j].Addr()
      || index[j].Addr() + Size(info[j]) <= index[i].Addr()
  }

  ghost function Done(info: map<nat, Info>, index: map<nat, Word>): map<nat, Info> {
    map i | i in info && i in index :: info[i]
  }

  /** What has been handed out is what the placed nodes use. */
  ghost predicate Filled(info: map<nat, Info>, index: map<nat, Word>, start: Indices, next: Indices, n: nat) {
    forall k :: IsKind(k) ==> next.At(k) == start.At(k) + Unit(k) * Total(Done(info, index), k, n)
  }

  /** The areas were sized for all counted nodes. */
  ghost predicate Sized(info: map<nat, Info>, start: Indices, tableSize: nat, matchSize: nat, n: nat) {
    && start.dfa == DFA_SIZE + 1
    && start.quad == start.dfa + GROUP_SIZE * Total(info, DFA, n)
    && start.single == start.quad + Total(info, QRANGE, n)
    && start.single + Total(info, SINGLE, n) <= tableSize < TYPE
    && start.match_ == 1
    && 1 + Total(info, MATCH, n) <= matchSize < TYPE
  }

  ghost predicate Layout(info: map<nat, Info>, index: map<nat, Word>, start: Indices, next: Indices, n: nat) {
    KindsOk(info, n) && AllPlaced(info, index, start, next) && Apart(info, index) && Filled(info, index, start, next, n)
  }

  lemma NonlinearLe(u: nat, a: nat, b: nat)
    requires a <= b
    ensures u * a <= u * b
  {
  }

  lemma Spread(u: nat, a: nat, b: nat)
    ensures u * (a + b) == u * a + u * b
  {
  }

  /** There is room for every node that has been counted and not been placed. */
  lemma Room(info: map<nat, Info>, index: map<nat, Word>, start: Indices, next: Indices, n: nat, id: nat)
    requires Layout(info, index, start, next, n) && id in info && id !in index
    ensures var k := info[id].kind;
      next.At(k) + Size(info[id]) <= start.At(k) + Unit(k) * Total(info, k, n)
  {
    var k := info[id].kind;
    var some := Done(info, index);
    TotalAdd(some, id, info[id], k, n);
    TotalWithin(some[id := info[id]], info, k, n);
    NonlinearLe(Unit(k), Total(some, k, n) + info[id].fanout, Total(info, k, n));
    Spread(Unit(k), Total(some, k, n), info[id].fanout);
    assert next.At(k) == start.At(k) + Unit(k) * Total(some, k, n);
  }

  /** Placing one more node at the next free place of its kind. */
  lemma Place1(info: map<nat, Info>, index: map<nat, Word>, start: Indices, next: Indices, n: nat, id: nat, w: Word)
    requires Layout(info, index, start, next, n) && id in info && id !in index
    requires w.Type() == info[id].kind && w.Addr() == next.At(w.Type())
    ensures Layout(info, index[id := w], start, next.Bump(info[id].kind, Size(info[id])), n)
  {
    var v := info[id];
    FilledStep(info, index, start, next, n, id, w);
    PlacedStep(info, index, start, next, id, w);
    ApartStep(info, index, start, next, id, w);
  }

  lemma FilledStep(info: map<nat, Info>, index: map<nat, Word>, start: Indices, next: Indices, n: nat, id: nat, w: Word)
    requires KindsOk(info, n) && Filled(info, index, start, next, n) && id in info && id !in index
    ensures Filled(info, index[id := w], start, next.Bump(info[id].kind, Size(info[id])), n)
  {
    var v := info[id];
    var some := Done(info, index);
    assert Done(info, index[id := w]) == some[id := v];
    forall k | IsKind(k)
      ensures next.Bump(v.kind, Size(v)).At(k) == start.At(k) + Unit(k) * Total(some[id := v], k, n)
    {
      TotalAdd(some, id, v, k, n);
      assert next.At(k) == start.At(k) + Unit(k) * Total(some, k, n);
      Spread(Unit(k), Total(some, k, n), v.fanout);
    }
  }

  lemma PlacedStep(info: map<nat, Info>, index: map<nat, Word>, start: Indices, next: Indices, id: nat, w: Word)
    requires AllPlaced(info, index, start, next) && id in info && IsKind(info[id].kind)
    requires start.At(info[id].kind) <= next.At(info[id].kind)
    requires w.Type() == info[id].kind && w.Addr() == next.At(w.Type())
    ensures AllPlaced(info, index[id := w], start, next.Bump(info[id].kind, Size(info[id])))
  {
  }

  lemma ApartStep(info: map<nat, Info>, index: map<nat, Word>, start: Indices, next: Indices, id: nat, w: Word)
    requires AllPlaced(info, index, start, next) && Apart(info, index) && id in info && id !in index
    requires w.Type() == info[id].kind && w.Addr() == next.At(w.Type())
    ensures Apart(info, index[id := w])
  {
  }

  /** Placed nodes have different words, none of which is "no match". */
  lemma DistinctWords(info: map<nat, Info>, index: map<nat, Word>, start: Indices, next: Indices, n: nat, i: nat,
      j: nat)
    requires Layout(info, index, start, next, n) && i in index && j in index && i != j
    ensures index[i] != index[j]
  {
    assert Placed(info[i], index[i], start, next) && Placed(info[j], index[j], start, next);
    SizePositive(info[i]);
    SizePositive(info[j]);
  }

  lemma SizePositive(v: Info)
    requires v.fanout >= 1
    ensures Size(v) >= 1
  {
    NonlinearLe(Unit(v.kind), 1, v.fanout);
  }

  lemma NotNoMatch(info: map<nat, Info>, index: map<nat, Word>, start: Indices, next: Indices, n: nat, i: nat)
    requires Layout(info, index, start, next, n) && i in index && start.match_ >= 1
    ensures index[i] != NoMatch
  {
    assert Placed(info[i], index[i], start, next);
    WordParts(0, MATCH, 0);
  }

  lemma AreaEnd(info: map<nat, Info>, index: map<nat, Word>, start: Indices, next: Indices, n: nat, k: nat)
    requires Filled(info, index, start, next, n) && IsKind(k)
    ensures next.At(k) <= start.At(k) + Unit(k) * Total(info, k, n)
  {
    var some := Done(info, index);
    TotalWithin(some, info, k, n);
    NonlinearLe(Unit(k), Total(some, k, n), Total(info, k, n));
  }

  /** Storage of a node that has transitions lies in the table, above the first area, in the area of its kind. */
  lemma Storage(info: map<nat, Info>, index: map<nat, Word>, start: Indices, next: Indices, n: nat, tableSize: nat,
      matchSize: nat, i: nat)
    requires Layout(info, index, start, next, n) && Sized(info, start, tableSize, matchSize, n)
    requires i in index && info[i].kind != MATCH
    ensures DFA_SIZE < index[i].Addr() && index[i].Addr() + Size(info[i]) <= tableSize
    ensures info[i].kind == DFA ==> index[i].Addr() + Size(info[i]) <= start.quad
    ensures info[i].kind == QRANGE ==> start.quad <= index[i].Addr() && index[i].Addr() + Size(info[i]) <= start.single
    ensures info[i].kind == SINGLE ==> start.single <= index[i].Addr()
  {
    hide Total, Apart, Filled;
    var k := info[i].kind;
    assert Placed(info[i], index[i], start, next);
    AreaEnd(info, index, start, next, n, k);
    var a, z := index[i].Addr(), index[i].Addr() + Size(info[i]);
    assert start.At(k) <= a && z <= start.At(k) + Unit(k) * Total(info, k, n);
  }

  lemma StorageApart(info: map<nat, Info>, index: map<nat, Word>, start: Indices, next: Indices, n: nat,
      tableSize: nat, matchSize: nat, i: nat, j: nat)
    requires Layout(info, index, start, next, n) && Sized(info, start, tableSize, matchSize, n)
    requires i in index && j in index && i != j && info[i].kind != MATCH && info[j].kind != MATCH
    ensures index[i].Addr() + Size(info[i]) <= index[j].Addr() || index[j].Addr() + Size(info[j]) <= index[i].Addr()
  {
    Storage(info, index, start, next, n, tableSize, matchSize, i);
    Storage(info, index, start, next, n, tableSize, matchSize, j);
  }
}
