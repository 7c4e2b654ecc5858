/**
  The run-time structure as a whole: generation for all tries, and walking the
  table is walking the trie.
*/
module AclTable {
  import opened Basics
  import opened AclTrie
  import opened AclWord
  import opened AclLayout
  import opened AclStore
  import opened AclCount
  import opened AclGen
  import opened AclMiniTrie

  /** The table, the match results and, per trie, where its root is stored. */
  datatype Runtime = Runtime(table: seq<Word>, matches: seq<Match>, roots: seq<nat>)

  /** The table represents a node and leads to the words of its children. */
  ghost predicate NodeServed(rt: Runtime, nd: Node, w: Word, index: map<nat, Word>) {
    if IsLeaf(nd) then
      nd.mrt.Some? && w.Type() == MATCH && w.Addr() < |rt.matches| && rt.matches[w.Addr()] == nd.mrt.value
    else
      && w.Type() < MATCH && ChildrenIn(nd, index.Keys)
      && forall x: byte :: 0 <= Target(w, x) < |rt.table| && rt.table[Target(w, x)] == EdgeWord(nd, index, x)
  }

  ghost predicate Serves(rt: Runtime, nodes: seq<Node>, index: map<nat, Word>) {
    && Base(rt.table)
    && |rt.matches| > 0 && rt.matches[0] == Zero
    && forall i :: i in index ==> i < |nodes| && NodeServed(rt, nodes[i], index[i], index)
  }

  /** A root's transitions are stored uncompressed at `root`. */
  ghost predicate RootServed(rt: Runtime, nodes: seq<Node>, index: map<nat, Word>, root: nat, id: nat) {
    id in index && id < |nodes| && forall x: byte :: WordServed(rt, nodes[id], index, root, x)
  }

  ghost predicate WordServed(rt: Runtime, nd: Node, index: map<nat, Word>, root: nat, x: byte) {
    root + x < |rt.table| && rt.table[root + x] == EdgeWord(nd, index, x)
  }

  // -------------------------------------------------------------------------- the theorem

  /** The word after walking `s` from node `id`. */
  ghost function PathWord(nodes: seq<Node>, index: map<nat, Word>, id: nat, s: seq<byte>): Word {
    match Walk(nodes, id, s)
    case None => NoMatch
    case Some(e) => if e in index then index[e] else NoMatch
  }

  /** `scalar_transition`, once for every byte. */
  function Run(table: seq<Word>, w: Word, s: seq<byte>): Word
    requires Safe(table, w, s)
    decreases |s|
  {
    if s == [] then w else Run(table, table[Target(w, s[0])], s[1..])
  }

  /** Every table access of `Run` is in bounds. */
  predicate Safe(table: seq<Word>, w: Word, s: seq<byte>)
    decreases |s|
  {
    s == [] || (0 <= Target(w, s[0]) < |table| && Safe(table, table[Target(w, s[0])], s[1..]))
  }

  lemma {:induction false} NoMatchRun(table: seq<Word>, s: seq<byte>)
    requires Base(table)
    ensures Safe(table, NoMatch, s) && Run(table, NoMatch, s) == NoMatch
    decreases |s|
  {
    if s != [] {
      NoMatchTarget(s[0]);
      NoMatchRun(table, s[1..]);
    }
  }

  /** Walking the table from a node's word follows the trie, as long as the trie has more than `|s|` levels. */
  lemma {:induction false} RunFollows(rt: Runtime, nodes: seq<Node>, index: map<nat, Word>, id: nat, s: seq<byte>,
      ls: seq<nat>, categories: nat)
    requires Serves(rt, nodes, index) && Wf(nodes, id, ls, categories) && id in index && |s| < |ls|
    ensures Safe(rt.table, index[id], s) && Run(rt.table, index[id], s) == PathWord(nodes, index, id, s)
    decreases |s|
  {
    if s != [] {
      var nd := nodes[id];
      assert NodeServed(rt, nd, index[id], index);
      var k := SlotOf(nd.ptrs, s[0]);
      assert rt.table[Target(index[id], s[0])] == EdgeWord(nd, index, s[0]);
      if k < |nd.ptrs| {
        assert nd.ptrs[k].child.value in index.Keys;
        RunFollows(rt, nodes, index, nd.ptrs[k].child.value, s[1..], ls[1..], categories);
      } else {
        NoMatchRun(rt.table, s[1..]);
      }
    }
  }

  /** The result that the trie at `id` has for input `s`. */
  ghost function Answer(nodes: seq<Node>, id: nat, s: seq<byte>): Match {
    match Lookup(nodes, id, s)
    case None => Zero
    case Some(m) => m
  }

  lemma {:induction false} WalkEnds(rt: Runtime, nodes: seq<Node>, index: map<nat, Word>, id: nat, s: seq<byte>,
      ls: seq<nat>, categories: nat)
    requires Serves(rt, nodes, index) && Wf(nodes, id, ls, categories) && id in index && |s| < |ls|
    ensures var e := Walk(nodes, id, s);
      e.Some? ==> e.value in index && Wf(nodes, e.value, ls[|s|..], categories)
    decreases |s|
  {
    if s != [] {
      assert NodeServed(rt, nodes[id], index[id], index);
      var k := SlotOf(nodes[id].ptrs, s[0]);
      if k < |nodes[id].ptrs| {
        assert nodes[id].ptrs[k].child.value in index.Keys;
        WalkEnds(rt, nodes, index, nodes[id].ptrs[k].child.value, s[1..], ls[1..], categories);
        assert ls[1..][|s| - 1..] == ls[|s|..];
      }
    } else {
      assert ls[0..] == ls;
    }
  }

  /** A match word is met at the last level, and earlier only when no rule matches; it names the trie's answer. */
  lemma Outcome(rt: Runtime, nodes: seq<Node>, index: map<nat, Word>, id: nat, key: seq<byte>, k: nat, ls: seq<nat>,
      categories: nat)
    requires Serves(rt, nodes, index) && Wf(nodes, id, ls, categories) && id in index && |key| + 1 == |ls| && k <= |key|
    ensures var w := PathWord(nodes, index, id, key[..k]);
      && (k == |key| ==> w.Type() >= MATCH)
      && (w.Type() >= MATCH ==> w.Addr() < |rt.matches| && rt.matches[w.Addr()] == Answer(nodes, id, key))
  {
    WalkEnds(rt, nodes, index, id, key[..k], ls, categories);
    WordParts(0, MATCH, 0);
    match Walk(nodes, id, key[..k])
    case None =>
      WalkSplit(nodes, id, key[..k], key[k..]);
      assert key[..k] + key[k..] == key;
    case Some(e) =>
      assert NodeServed(rt, nodes[e], index[e], index);
      assert k == |key| ==> key[..k] == key;
  }

  // ------------------------------------------------------------------------- generation

  lemma StateServes(nodes: seq<Node>, info: map<nat, Info>, start: Indices, index: map<nat, Word>, next: Indices,
                    table: seq<Word>, matches: seq<Match>, roots: seq<nat>)
    requires State(nodes, info, start, index, next, table, matches, {})
    ensures Serves(Runtime(table, matches, roots), nodes, index)
  {
    forall i | i in index ensures i < |nodes| && NodeServed(Runtime(table, matches, roots), nodes[i], index[i], index) {
      assert Placed(info[i], index[i], start, next);
      assert InfoOk(nodes[i], info[i]);
      assert Generated(nodes[i], info[i], index[i], index, table, matches);
    }
  }

  lemma RootPlace(nodes: seq<Node>, info: map<nat, Info>, start: Indices, index: map<nat, Word>, next: Indices,
                  table: seq<Word>, matches: seq<Match>, roots: seq<nat>, id: nat)
    requires State(nodes, info, start, index, next, table, matches, {})
    requires id in index && id in info && info[id] == Info(DFA, 4, [0, 1, 2, 3])
    ensures RootServed(Runtime(table, matches, roots), nodes, index, index[id].lo, id)
  {
    hide State, Generated, Placed, WordOk, EdgeWord;
    RootFacts(nodes, info, start, index, next, table, matches, id);
    var w, rt := index[id], Runtime(table, matches, roots);
    forall x: byte ensures WordServed(rt, nodes[id], index, w.lo, x) {
      RootEntry(nodes[id], info[id], w, start, next, index, table, matches, x);
    }
  }

  lemma RootEntry(nd: Node, v: Info, w: Word, start: Indices, next: Indices, index: map<nat, Word>, table: seq<Word>,
      matches: seq<Match>, x: byte)
    requires v == Info(DFA, 4, [0, 1, 2, 3]) && Placed(v, w, start, next) && WordOk(nd, v, w)
    requires Generated(nd, v, w, index, table, matches)
    ensures w.lo + x < |table| && table[w.lo + x] == EdgeWord(nd, index, x)
  {
    hide EdgeWord;
    WordFrom(w, DFA, w.Addr());
    DfaTarget([0, 1, 2, 3], w.Addr(), x);
    assert [0, 1, 2, 3][x / 64] == x / 64;
    assert Target(w, x) == w.lo + x;
  }

  lemma RootFacts(nodes: seq<Node>, info: map<nat, Info>, start: Indices, index: map<nat, Word>, next: Indices,
                  table: seq<Word>, matches: seq<Match>, id: nat)
    requires State(nodes, info, start, index, next, table, matches, {}) && id in index && id in info
    ensures id < |nodes| && Placed(info[id], index[id], start, next) && WordOk(nodes[id], info[id], index[id])
    ensures Generated(nodes[id], info[id], index[id], index, table, matches)
  {
    hide Placed, WordOk, Generated, Total, Sized;
    assert AllPlaced(info, index, start, next);
  }

  function Align(n: nat, to: nat): nat
    requires to > 0
  {
    (n + to - 1) / to * to
  }

  /** Bytes of the run-time structure. */
  function Footprint(dataIndexSize: nat, matchStart: nat, matches: nat): nat {
    Align(dataIndexSize, 64) + 8 * matchStart + 128 * matches + 16
  }

  // ------------------------------------------------------------ what the structure takes

  /** The words that the nodes of `placed` below `n` take in the table. Roots are at level 0. */
  ghost function TableWords(nodes: seq<Node>, placed: set<nat>, n: nat): nat
    requires n <= |nodes|
  {
    if n == 0 then 0
    else
      var nd := nodes[n - 1];
      TableWords(nodes, placed, n - 1) + if n - 1 in placed then WordsFor(nd, nd.level == 0) else 0
  }

  ghost function CountLeaves(nodes: seq<Node>, placed: set<nat>, n: nat): nat
    requires n <= |nodes|
  {
    if n == 0 then 0
    else CountLeaves(nodes, placed, n - 1) + if n - 1 in placed && IsLeaf(nodes[n - 1]) then 1 else 0
  }

  ghost predicate RoundedUp(n: nat, to: nat, r: nat)
    requires to > 0
  {
    r % to == 0 && n <= r < n + to
  }

  lemma AlignPairs(n: nat)
    ensures RoundedUp(n, 2, Align(n, 2))
  {
  }

  lemma AlignLines(n: nat)
    ensures RoundedUp(n, 64, Align(n, 64))
  {
  }

  lemma PairsOnce(n: nat, a: nat, b: nat)
    requires RoundedUp(n, 2, a) && RoundedUp(n, 2, b)
    ensures a == b
  {
  }

  lemma LinesOnce(n: nat, a: nat, b: nat)
    requires RoundedUp(n, 64, a) && RoundedUp(n, 64, b)
    ensures a == b
  {
  }

  /**
    The bytes for the tries with roots `ids`: the data indexes in whole cache lines; 8 for each word of the no-match
    area, of all nodes and of the idle word, in pairs; 128 for each match and for no match; and 16 at the end.
  */
  ghost predicate Needs(nodes: seq<Node>, ids: seq<nat>, dataIndexSize: nat, need: nat) {
    exists placed: set<nat>, lines: nat, words: nat :: Takes(nodes, ids, placed, dataIndexSize, lines, words, need)
  }

  ghost predicate Takes(nodes: seq<Node>, ids: seq<nat>, placed: set<nat>, dataIndexSize: nat, lines: nat, words: nat,
      need: nat) {
    && Reached(nodes, ids, placed) && RoundedUp(dataIndexSize, 64, lines)
    && RoundedUp(256 + 1 + TableWords(nodes, placed, |nodes|) + 1, 2, words)
    && need == lines + 8 * words + 128 * (CountLeaves(nodes, placed, |nodes|) + 1) + 16
  }

  /** The nodes and the roots alone determine it. */
  lemma NeedsOnce(nodes: seq<Node>, ids: seq<nat>, dataIndexSize: nat, a: nat, b: nat)
    requires Needs(nodes, ids, dataIndexSize, a) && Needs(nodes, ids, dataIndexSize, b)
    ensures a == b
  {
    hide Reached, RoundedUp;
    var p, l, w :| Takes(nodes, ids, p, dataIndexSize, l, w, a);
    var p', l', w' :| Takes(nodes, ids, p', dataIndexSize, l', w', b);
    ReachedOnce(nodes, ids, p, p');
    LinesOnce(dataIndexSize, l, l');
    PairsOnce(256 + 1 + TableWords(nodes, p, |nodes|) + 1, w, w');
  }

  lemma ReachedOnce(nodes: seq<Node>, ids: seq<nat>, p: set<nat>, q: set<nat>)
    requires Reached(nodes, ids, p) && Reached(nodes, ids, q)
    ensures p == q
  {
    assert p <= q && q <= p;
  }

  ghost predicate AllSizes(nodes: seq<Node>, info: map<nat, Info>) {
    forall i :: i in info && i < |nodes| ==> SizeIs(nodes[i], nodes[i].level == 0, info[i])
  }

  lemma {:induction false} TotalsAre(nodes: seq<Node>, info: map<nat, Info>, n: nat)
    requires AllSizes(nodes, info) && Known(nodes, info) && n <= |nodes|
    ensures TableWords(nodes, info.Keys, n) ==
      64 * Total(info, DFA, n) + Total(info, QRANGE, n) + Total(info, SINGLE, n)
    ensures CountLeaves(nodes, info.Keys, n) == Total(info, MATCH, n)
  {
    hide InfoOk, WordsFor;
    if n > 0 {
      TotalsAre(nodes, info, n - 1);
      if n - 1 in info {
        KindsAre(nodes[n - 1], info[n - 1]);
        LeafWords(nodes[n - 1]);
        assert SizeIs(nodes[n - 1], nodes[n - 1].level == 0, info[n - 1]);
      }
    }
  }

  lemma LeafWords(nd: Node)
    ensures IsLeaf(nd) ==> forall root :: WordsFor(nd, root) == 0
  {
  }

  lemma KindsAre(nd: Node, v: Info)
    requires InfoOk(nd, v)
    ensures v.kind in {DFA, QRANGE, SINGLE, MATCH}
  {
  }

  /** The footprint counted is what the structure takes. */
  lemma CountedNeed(nodes: seq<Node>, ids: seq<nat>, info: map<nat, Info>, counts: Counts, dataIndexSize: nat)
    requires Known(nodes, info) && Closed(nodes, info, {}) && CountsOk(info, counts, |nodes|) && AllSizes(nodes, info)
    requires forall i :: 0 <= i < |ids| ==> ids[i] in info
    requires forall all: set<nat> :: Whole(nodes, all) && (forall i :: 0 <= i < |ids| ==> ids[i] in all) ==>
      info.Keys <= all
    ensures var words := Align(DFA_SIZE + 1 + counts.dfaGr64 * GROUP_SIZE + counts.quadVectors + counts.single + 1, 2);
      Needs(nodes, ids, dataIndexSize, Footprint(dataIndexSize, words, counts.match_ + 1))
  {
    hide InfoOk, SizeIs, RoundedUp, Align;
    var n := DFA_SIZE + 1 + counts.dfaGr64 * GROUP_SIZE + counts.quadVectors + counts.single + 1;
    TotalsAre(nodes, info, |nodes|);
    AlignLines(dataIndexSize);
    AlignPairs(n);
    assert Reached(nodes, ids, info.Keys);
    var words := Align(n, 2);
    assert Takes(nodes, ids, info.Keys, dataIndexSize, Align(dataIndexSize, 64), words,
      Footprint(dataIndexSize, words, counts.match_ + 1));
  }

  ghost predicate Tries(nodes: seq<Node>, ids: seq<nat>, lss: seq<seq<nat>>, categories: nat) {
    && |lss| == |ids|
    && forall i :: 0 <= i < |ids| ==> |lss[i]| > 1 && Wf(nodes, ids[i], lss[i], categories) && nodes[ids[i]].level == 0
  }

  ghost predicate RootInfos(info: map<nat, Info>, ids: seq<nat>, n: nat)
    requires n <= |ids|
  {
    forall i :: 0 <= i < n ==> ids[i] in info && info[ids[i]] == Info(DFA, 4, [0, 1, 2, 3])
  }

  /** No root is met below another root, so each is encoded as an uncompressed array. */
  method CountAll(nodes: seq<Node>, categories: nat, ids: seq<nat>, ghost lss: seq<seq<nat>>) returns (info: map<nat,
      Info>, counts: Counts)
    requires Tries(nodes, ids, lss, categories)
    ensures Known(nodes, info) && Closed(nodes, info, {}) && CountsOk(info, counts, |nodes|)
    ensures RootInfos(info, ids, |ids|) && AllSizes(nodes, info)
    ensures forall all: set<nat> :: Whole(nodes, all) && (forall i :: 0 <= i < |ids| ==> ids[i] in all) ==>
      info.Keys <= all
  {
    hide InfoOk, SizeIs, AllSizes, NewSizes, CountsOk;
    var counter := new Counter(nodes, categories);
    NoSizes(nodes);
    for n := 0 to |ids|
      invariant counter.Counted({}) && counter.nodes == nodes && counter.categories == categories
      invariant RootInfos(counter.info, ids, n) && AllSizes(nodes, counter.info)
      invariant forall all: set<nat> :: Whole(nodes, all) && (forall i :: 0 <= i < n ==> ids[i] in all) ==>
        counter.info.Keys <= all
      invariant forall i :: i in counter.info && i < |nodes| && nodes[i].level == 0 ==>
        counter.info[i] == Info(DFA, 4, [0, 1, 2, 3])
    {
      ghost var before := counter.info;
      counter.CountNode(ids[n], true, lss[n], {});
      assert NewUnder(nodes, before, counter.info, ids[n]);
      SizesGrown(nodes, before, counter.info, ids[n]);
      forall all: set<nat> | Whole(nodes, all) && (forall i :: 0 <= i < n + 1 ==>
        ids[i] in all) ensures counter.info.Keys <= all {
        assert before.Keys <= all;
      }
    }
    info, counts := counter.info, counter.counts;
  }

  lemma NoSizes(nodes: seq<Node>)
    ensures AllSizes(nodes, map[])
  {
  }

  lemma SizesGrown(nodes: seq<Node>, before: map<nat, Info>, after: map<nat, Info>, id: nat)
    requires AllSizes(nodes, before) && id < |nodes| && nodes[id].level == 0
    requires NewUnder(nodes, before, after, id) && NewSizes(nodes, before, after, id, true)
    ensures AllSizes(nodes, after)
  {
    hide SizeIs;
  }

  /** `acl_calc_counts_indices`. */
  method Areas(info: map<nat, Info>, counts: Counts, ghost n: nat) returns (start: Indices, matchStart: nat)
    requires CountsOk(info, counts, n)
    ensures matchStart < TYPE && counts.match_ + 1 < TYPE ==> Sized(info, start, matchStart, counts.match_ + 1, n)
    ensures matchStart == Align(start.single + counts.single + 1, 2)
    ensures start.single == DFA_SIZE + 1 + counts.dfaGr64 * GROUP_SIZE + counts.quadVectors
  {
    var dfa := DFA_SIZE + 1;
    var quad := dfa + counts.dfaGr64 * GROUP_SIZE;
    var single := quad + counts.quadVectors;
    start := Indices(dfa, quad, single, 1);
    matchStart := Align(single + counts.single + 1, 2);
  }

  /** The areas as they were counted, between `start` and `next`, have been handed out in full, one behind the other. */
  ghost predicate Exact(start: Indices, next: Indices, tableSize: nat, matchSize: nat) {
    && start.dfa == DFA_SIZE + 1 && next.dfa == start.quad && next.quad == start.single &&
       tableSize == Align(next.single + 1, 2)
    && start.match_ == 1 && next.match_ == matchSize
  }

  /** The nodes placed are those that the roots lead to. */
  ghost predicate Reached(nodes: seq<Node>, ids: seq<nat>, placed: set<nat>) {
    && Whole(nodes, placed) && (forall i :: 0 <= i < |ids| ==> ids[i] in placed)
    && forall all: set<nat> :: Whole(nodes, all) && (forall i :: 0 <= i < |ids| ==> ids[i] in all) ==> placed <= all
  }

  /** Everything counted has been placed, so that the sizes counted are the sizes used. */
  lemma AllPlacedNow(nodes: seq<Node>, ids: seq<nat>, info: map<nat, Info>, start: Indices, index: map<nat, Word>,
      next: Indices,
                     table: seq<Word>, matches: seq<Match>, counts: Counts)
    requires State(nodes, info, start, index, next, table, matches, {}) && CountsOk(info, counts, |nodes|)
    requires forall i :: 0 <= i < |ids| ==> ids[i] in index
    requires forall all: set<nat> :: Whole(nodes, all) && (forall i :: 0 <= i < |ids| ==> ids[i] in all) ==>
      info.Keys <= all
    requires |table| == Align(start.single + counts.single + 1, 2) && |matches| == counts.match_ + 1
    ensures index.Keys == info.Keys && Reached(nodes, ids, index.Keys) && Exact(start, next, |table|, |matches|)
  {
    hide State, Whole, Total, Filled;
    PlacedIsWhole(nodes, info, start, index, next, table, matches);
    assert index.Keys == info.Keys;
    assert Done(info, index) == info;
    NextIs(info, index, start, next, |nodes|, DFA);
    NextIs(info, index, start, next, |nodes|, QRANGE);
    NextIs(info, index, start, next, |nodes|, SINGLE);
    NextIs(info, index, start, next, |nodes|, MATCH);
  }

  lemma PlacedIsWhole(nodes: seq<Node>, info: map<nat, Info>, start: Indices, index: map<nat, Word>, next: Indices,
                      table: seq<Word>, matches: seq<Match>)
    requires State(nodes, info, start, index, next, table, matches, {})
    ensures Whole(nodes, index.Keys) && index.Keys <= info.Keys
    ensures Filled(info, index, start, next, |nodes|) && Sized(info, start, |table|, |matches|, |nodes|)
  {
    hide Sized, Filled;
    forall i | i in index && i < |nodes| ensures ChildrenIn(nodes[i], index.Keys) {
      assert Generated(nodes[i], info[i], index[i], index, table, matches);
    }
  }

  lemma NextIs(info: map<nat, Info>, index: map<nat, Word>, start: Indices, next: Indices, n: nat, k: nat)
    requires Filled(info, index, start, next, n) && Done(info, index) == info && IsKind(k)
    ensures next.At(k) == start.At(k) + Unit(k) * Total(info, k, n)
  {
  }

  /**
    `rte_acl_gen`: succeeds exactly when the structure is not larger than allowed and can
    be allocated. No more than 4 GiB can be, so addresses fit the word.
  */
  method Generate(nodes: seq<Node>, categories: nat, ids: seq<nat>, ghost lss: seq<seq<nat>>, dataIndexSize: nat,
      maxSize: nat, available: nat)
    returns (r: Option<Runtime>, need: nat, ghost index: map<nat, Word>, ghost start: Indices, ghost next: Indices)
    requires Tries(nodes, ids, lss, categories) && available < 8 * TYPE
    ensures Needs(nodes, ids, dataIndexSize, need)
    ensures r.Some? <==> need <= maxSize && need <= available
    ensures r.Some? ==> Serves(r.value, nodes, index) && |r.value.roots| == |ids|
    ensures r.Some? ==> forall i :: 0 <= i < |ids| ==> RootServed(r.value, nodes, index, r.value.roots[i], ids[i])
    ensures r.Some? ==> need == Footprint(dataIndexSize, |r.value.table|, |r.value.matches|)
    ensures r.Some? ==> Reached(nodes, ids, index.Keys) && Exact(start, next, |r.value.table|, |r.value.matches|)
  {
    hide State, Reached, Needs, AllSizes;
    index := map[];
    var info, counts := CountAll(nodes, categories, ids, lss);
    var areas, matchStart := Areas(info, counts, |nodes|);
    start, next := areas, areas;
    need := Footprint(dataIndexSize, matchStart, counts.match_ + 1);
    CountedNeed(nodes, ids, info, counts, dataIndexSize);
    if need > maxSize || need > available {
      return None, need, index, start, next;
    }
    var gen := new Generator(nodes, categories, info, areas, matchStart, counts.match_ + 1);
    var roots := GenRoots(gen, ids, lss);
    StateServes(nodes, info, start, gen.index, gen.indices, gen.table[..], gen.matches[..], roots);
    forall i | 0 <= i < |ids|
      ensures RootServed(Runtime(gen.table[..], gen.matches[..], roots), nodes, gen.index, roots[i], ids[i])
    {
      RootPlace(nodes, info, start, gen.index, gen.indices, gen.table[..], gen.matches[..], roots, ids[i]);
    }
    AllPlacedNow(nodes, ids, info, start, gen.index, gen.indices, gen.table[..], gen.matches[..], counts);
    r := Some(Runtime(gen.table[..], gen.matches[..], roots));
    index, next := gen.index, gen.indices;
  }

  method GenRoots(gen: Generator, ids: seq<nat>, ghost lss: seq<seq<nat>>) returns (roots: seq<nat>)
    requires gen.Valid({}) && Tries(gen.nodes, ids, lss, gen.categories) && RootInfos(gen.info, ids, |ids|)
    modifies gen, gen.table, gen.matches
    ensures gen.Valid({}) && |roots| == |ids|
    ensures forall i :: 0 <= i < |ids| ==> ids[i] in gen.index && roots[i] == gen.index[ids[i]].lo
  {
    hide State;
    roots := [];
    for n := 0 to |ids|
      invariant gen.Valid({}) && |roots| == n
      invariant forall i :: 0 <= i < n ==> ids[i] in gen.index && roots[i] == gen.index[ids[i]].lo
    {
      gen.GenNode(ids[n], lss[n], {});
      roots := roots + [gen.index[ids[n]].lo];
    }
  }
}
