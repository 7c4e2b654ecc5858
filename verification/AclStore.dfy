/**
  Writing the transitions of one node into the table, and what writing one node
  leaves alone.
*/
module AclStore {
  import opened AclTrie
  import opened AclWord
  import opened AclNodes
  import opened AclRuns
  import opened AclLayout

  // ----------------------------------------------------------------- the word of a node

  /** The boundaries in the word are those of the node, whatever its slots lead to. */
  ghost predicate RangeWord(ptrs: seq<Ptr>, hi: bv32) {
    forall target: seq<Word>, dfa: seq<Word> :: |target| == |ptrs| && Separate(target) && IsDfa(dfa, ptrs, target) ==>
      |Bounds(dfa, DFA_SIZE)| <= 4 && hi == QuadBits(Padded(Bounds(dfa, DFA_SIZE)))
  }

  /** `w` selects by its high half the entry of `v`'s storage that an input needs. */
  ghost predicate WordOk(nd: Node, v: Info, w: Word) {
    if v.kind == DFA then GroupsOk(v.gr) && w.hi == GroupBits(v.gr)
    else if v.kind == QRANGE then RangeWord(nd.ptrs, w.hi)
    else w.hi == if v.kind == SINGLE then QuadSingle else 0
  }

  /** The transitions `dfa` are found in the storage of size `sz` that `w` leads to. */
  ghost predicate Stored(table: seq<Word>, w: Word, sz: nat, dfa: seq<Word>)
    requires |dfa| == DFA_SIZE
  {
    forall x: byte ::
      w.Addr() <= Target(w, x) < w.Addr() + sz && Target(w, x) < |table| && table[Target(w, x)] == dfa[x]
  }

  ghost predicate SameOutside(a: seq<Word>, b: seq<Word>, addr: nat, sz: nat) {
    |a| == |b| && forall t :: 0 <= t < |a| && (t < addr || addr + sz <= t) ==> a[t] == b[t]
  }

  // ------------------------------------------------------------------------- the writes

  /** `acl_dfa_fill_gr64`. */
  method FillGroups(table: array<Word>, addr: nat, gr: seq<nat>, fanout: nat, dfa: seq<Word>)
    requires SharesOnlyEqual(dfa, gr) && forall i :: 0 <= i < 4 ==> gr[i] < fanout
    requires addr + 64 * fanout <= table.Length
    modifies table
    ensures forall x: byte :: addr + Place(gr, x) < table.Length && table[addr + Place(gr, x)] == dfa[x]
    ensures SameOutside(old(table[..]), table[..], addr, 64 * fanout)
  {
    forall x: byte ensures Place(gr, x) < 64 * fanout {
      assert gr[x / 64] < fanout;
    }
    for x := 0 to DFA_SIZE
      invariant forall y: byte :: y < x ==> addr + Place(gr, y) < table.Length && table[addr + Place(gr, y)] == dfa[y]
      invariant SameOutside(old(table[..]), table[..], addr, 64 * fanout)
    {
      ghost var was := table[..];
      table[addr + Place(gr, x)] := dfa[x];
      forall y: byte | y < x + 1 ensures addr + Place(gr, y) < table.Length && table[addr + Place(gr, y)] == dfa[y] {
        if y < x {
          if Place(gr, y) == Place(gr, x) { SharedEntries(dfa, gr, x, y); }
          assert was[addr + Place(gr, y)] == dfa[y];
        }
      }
    }
  }

  method WriteAll(table: array<Word>, addr: nat, entries: seq<Word>)
    requires addr + |entries| <= table.Length
    modifies table
    ensures table[addr..addr + |entries|] == entries
    ensures SameOutside(old(table[..]), table[..], addr, |entries|)
  {
    for k := 0 to |entries|
      invariant forall j :: 0 <= j < k ==> table[addr + j] == entries[j]
      invariant SameOutside(old(table[..]), table[..], addr, |entries|)
    {
      table[addr + k] := entries[k];
    }
  }

  lemma StoredDfa(table: seq<Word>, gr: seq<nat>, fanout: nat, w: Word, sz: nat, dfa: seq<Word>)
    requires |dfa| == DFA_SIZE && GroupsOk(gr) && forall i :: 0 <= i < 4 ==> gr[i] < fanout
    requires w.Type() == DFA && w.hi == GroupBits(gr) && sz == 64 * fanout
    requires forall x: byte :: w.Addr() + Place(gr, x) < |table| && table[w.Addr() + Place(gr, x)] == dfa[x]
    ensures Stored(table, w, sz, dfa)
  {
    WordFrom(w, DFA, w.Addr());
    forall x: byte
      ensures w.Addr() <= Target(w, x) < w.Addr() + sz && Target(w, x) < |table| && table[Target(w, x)] == dfa[x]
    {
      DfaTarget(gr, w.Addr(), x);
      assert gr[x / 64] < fanout;
      assert table[w.Addr() + Place(gr, x)] == dfa[x];
    }
  }

  lemma StoredRange(table: seq<Word>, w: Word, dfa: seq<Word>, sz: nat, addr: nat)
    requires |dfa| == DFA_SIZE && addr < TYPE && |Bounds(dfa, DFA_SIZE)| <= 4
    requires w == Word(QuadBits(Padded(Bounds(dfa, DFA_SIZE))), QRANGE * TYPE + addr)
    requires sz == |Entries(dfa, DFA_SIZE)| && addr + sz <= |table| && table[addr..addr + sz] == Entries(dfa, DFA_SIZE)
    ensures Stored(table, w, sz, dfa)
  {
    WordParts(w.hi, QRANGE, addr);
    forall x: byte
      ensures w.Addr() <= Target(w, x) < w.Addr() + sz && Target(w, x) < |table| && table[Target(w, x)] == dfa[x]
    {
      RangeTarget(dfa, addr, x);
      var t := Target(w, x) - addr;
      assert table[addr..addr + sz][t] == table[addr + t];
    }
  }

  lemma StoredSingle(table: seq<Word>, addr: nat, dfa: seq<Word>)
    requires |dfa| == DFA_SIZE && addr < TYPE && addr < |table|
    requires forall x: byte :: dfa[x] == table[addr]
    ensures Stored(table, Word(QuadSingle, SINGLE * TYPE + addr), 1, dfa)
  {
    var w := Word(QuadSingle, SINGLE * TYPE + addr);
    WordParts(w.hi, SINGLE, addr);
    forall x: byte
      ensures w.Addr() <= Target(w, x) < w.Addr() + 1 && Target(w, x) < |table| && table[Target(w, x)] == dfa[x]
    {
      SingleTarget(addr, x);
    }
  }

  /** The boundaries found with slot numbers hold for every choice of targets. */
  lemma RangeWordOf(ptrs: seq<Ptr>, slots: seq<Word>, dfa: seq<Word>)
    requires |slots| == |ptrs| && Separate(slots) && IsDfa(dfa, ptrs, slots)
    requires |Entries(dfa, DFA_SIZE)| <= QUAD_MAX
    ensures |Bounds(dfa, DFA_SIZE)| <= 4 && RangeWord(ptrs, QuadBits(Padded(Bounds(dfa, DFA_SIZE))))
  {
    BoundsBelow(dfa, DFA_SIZE);
    forall target: seq<Word>, d: seq<Word> | |target| == |ptrs| && Separate(target) && IsDfa(d, ptrs, target)
      ensures Bounds(d, DFA_SIZE) == Bounds(dfa, DFA_SIZE)
    {
      ShapeOfSlots(ptrs, slots, target, dfa, d);
      ShapeBounds(dfa, d, DFA_SIZE);
    }
  }

  lemma WordFrom(w: Word, kind: nat, addr: nat)
    requires w.Type() == kind && w.Addr() == addr
    ensures w == Word(w.hi, kind * TYPE + addr)
  {
  }

  method StoreDfa(table: array<Word>, v: Info, w: Word, dfa: seq<Word>)
    requires |dfa| == DFA_SIZE && v.kind == DFA && Fits(v, dfa) && w.hi == GroupBits(v.gr) && w.Type() == DFA
    requires w.Addr() + Size(v) <= table.Length
    modifies table
    ensures SameOutside(old(table[..]), table[..], w.Addr(), Size(v))
    ensures Stored(table[..], w, Size(v), dfa)
  {
    FillGroups(table, w.Addr(), v.gr, v.fanout, dfa);
    StoredDfa(table[..], v.gr, v.fanout, w, Size(v), dfa);
  }

  method StoreRange(table: array<Word>, w: Word, dfa: seq<Word>)
    requires |dfa| == DFA_SIZE && |Bounds(dfa, DFA_SIZE)| <= 4 && w.hi == QuadBits(Padded(Bounds(dfa, DFA_SIZE))) &&
      w.Type() == QRANGE
    requires w.Addr() + |Entries(dfa, DFA_SIZE)| <= table.Length
    modifies table
    ensures SameOutside(old(table[..]), table[..], w.Addr(), |Entries(dfa, DFA_SIZE)|)
    ensures Stored(table[..], w, |Entries(dfa, DFA_SIZE)|, dfa)
  {
    var entries, bounds := FillRanges(dfa);
    WriteAll(table, w.Addr(), entries);
    WordFrom(w, QRANGE, w.Addr());
    assert table[..][w.Addr()..w.Addr() + |entries|] == entries;
    StoredRange(table[..], w, dfa, |entries|, w.Addr());
  }

  /** `acl_add_ptrs` with all children placed, and the resolution of a single node. */
  method Store(table: array<Word>, nd: Node, v: Info, w: Word, target: seq<Word>) returns (ghost dfa: seq<Word>)
    requires NodeOk(nd) && !IsLeaf(nd) && InfoOk(nd, v) && WordOk(nd, v, w) && w.Type() == v.kind
    requires |target| == |nd.ptrs| && Separate(target)
    requires w.Addr() + Size(v) <= table.Length
    modifies table
    ensures SameOutside(old(table[..]), table[..], w.Addr(), Size(v))
    ensures IsDfa(dfa, nd.ptrs, target) && Stored(table[..], w, Size(v), dfa)
  {
    var d := FillDfa(nd.ptrs, target);
    dfa := d;
    Chosen(nd, v, w, target, d);
    if v.kind == DFA {
      StoreDfa(table, v, w, d);
    } else if v.kind == QRANGE {
      StoreRange(table, w, d);
    } else {
      StoreOnly(table, nd, w, target, d);
    }
  }

  lemma Chosen(nd: Node, v: Info, w: Word, target: seq<Word>, dfa: seq<Word>)
    requires !IsLeaf(nd) && InfoOk(nd, v) && WordOk(nd, v, w)
    requires |target| == |nd.ptrs| && Separate(target) && IsDfa(dfa, nd.ptrs, target)
    ensures v.kind == DFA ==> Fits(v, dfa) && w.hi == GroupBits(v.gr)
    ensures v.kind == QRANGE ==>
      Size(v) == |Entries(dfa, DFA_SIZE)| && |Bounds(dfa, DFA_SIZE)| <= 4 &&
        w.hi == QuadBits(Padded(Bounds(dfa, DFA_SIZE)))
    ensures v.kind != DFA && v.kind != QRANGE ==>
      v.kind == SINGLE && Size(v) == 1 && |Entries(dfa, DFA_SIZE)| == 1 && w.hi == QuadSingle
  {
    assert Fits(v, dfa);
    assert v.kind in {DFA, SINGLE, QRANGE};
  }

  method StoreOnly(table: array<Word>, nd: Node, w: Word, target: seq<Word>, ghost dfa: seq<Word>)
    requires NodeOk(nd) && nd.ptrs != [] && |target| == |nd.ptrs| && IsDfa(dfa, nd.ptrs, target)
    requires |Entries(dfa, DFA_SIZE)| == 1 && w.Addr() < table.Length && w.hi == QuadSingle && w.Type() == SINGLE
    modifies table
    ensures SameOutside(old(table[..]), table[..], w.Addr(), 1)
    ensures Stored(table[..], w, 1, dfa)
  {
    StoreSingle(table, nd, w.Addr(), target, dfa);
    WordFrom(w, SINGLE, w.Addr());
    StoredSingle(table[..], w.Addr(), dfa);
  }

  /** A node with one run has one child; the last one assigned is it. */
  method StoreSingle(table: array<Word>, nd: Node, addr: nat, target: seq<Word>, ghost dfa: seq<Word>)
    requires NodeOk(nd) && nd.ptrs != [] && |target| == |nd.ptrs| && IsDfa(dfa, nd.ptrs, target)
    requires |Entries(dfa, DFA_SIZE)| == 1 && addr < table.Length
    modifies table
    ensures SameOutside(old(table[..]), table[..], addr, 1)
    ensures forall x: byte :: dfa[x] == table[addr]
  {
    for n := 0 to |nd.ptrs|
      invariant SameOutside(old(table[..]), table[..], addr, 1)
      invariant n > 0 ==> forall x: byte :: dfa[x] == table[addr]
    {
      table[addr] := target[n];
      ghost var y :| y in nd.ptrs[n].values;
      SlotIs(nd.ptrs, y, n);
      forall x: byte ensures dfa[x] == dfa[y] {
        OneRun(dfa, x);
        OneRun(dfa, y);
      }
    }
  }
}
