/**
  Runs of equal transitions in the order of signed byte values: how many there
  are, and the range node that stores one entry per run.
*/
module AclRuns {
  import opened Basics
  import opened AclTrie
  import opened AclWord
  import opened AclNodes

  /** The byte at position `p`: 0x80 to 0xff, then 0 to 0x7f. */
  function At(p: nat): (x: byte)
    requires p < DFA_SIZE
    ensures Pos(x) == p
  {
    (p + 128) % 256
  }

  // ------------------------------------------------------------------ counting the runs

  predicate GroupStart(values: set<byte>, one: bool, p: nat)
    requires p < DFA_SIZE
  {
    (At(p) in values) == one && (p == 0 || (At(p - 1) in values) != one)
  }

  /** Number of groups of neighbours that are all in `values`, or all not in it, among the first `p` positions. */
  function Groups(values: set<byte>, one: bool, p: nat): nat
    requires p <= DFA_SIZE
  {
    if p == 0 then 0 else Groups(values, one, p - 1) + if GroupStart(values, one, p - 1) then 1 else 0
  }

  /** `acl_count_sequential_groups`. */
  method CountGroups(values: set<byte>, one: bool) returns (ranges: nat)
    ensures ranges == Groups(values, one, DFA_SIZE)
  {
    ranges := 0;
    var last := !one;
    for p := 0 to DFA_SIZE
      invariant ranges == Groups(values, one, p)
      invariant last == if p == 0 then !one else At(p - 1) in values
    {
      if At(p) in values {
        if one && !last {
          ranges := ranges + 1;
        }
        last := true;
      } else {
        if !one && last {
          ranges := ranges + 1;
        }
        last := false;
      }
    }
  }

  function SumGroups(ptrs: seq<Ptr>, p: nat): nat
    requires p <= DFA_SIZE
  {
    if ptrs == [] then 0
    else SumGroups(ptrs[..|ptrs| - 1], p) + if ptrs[|ptrs| - 1].child.Some? then Groups(ptrs[|ptrs| - 1].values, true,
      p) else 0
  }

  // -------------------------------------------------------------------- runs of an array

  predicate RunStart(dfa: seq<Word>, p: nat)
    requires |dfa| == DFA_SIZE && p < DFA_SIZE
  {
    p == 0 || dfa[At(p)] != dfa[At(p - 1)]
  }

  /** One entry for each run that starts before position `p`. */
  function Entries(dfa: seq<Word>, p: nat): seq<Word>
    requires |dfa| == DFA_SIZE && p <= DFA_SIZE
  {
    if p == 0 then [] else Entries(dfa, p - 1) + if RunStart(dfa, p - 1) then [dfa[At(p - 1)]] else []
  }

  /** The last byte of each run that ends before position `p - 1`. */
  function Bounds(dfa: seq<Word>, p: nat): seq<byte>
    requires |dfa| == DFA_SIZE && 1 <= p <= DFA_SIZE
  {
    if p == 1 then [] else Bounds(dfa, p - 1) + if RunStart(dfa, p - 1) then [At(p - 2)] else []
  }

  // The three growths of the sum of groups at one position.

  lemma {:induction false} SumSame(ptrs: seq<Ptr>, p: nat)
    requires p < DFA_SIZE
    requires forall k :: 0 <= k < |ptrs| && ptrs[k].child.Some? ==> !GroupStart(ptrs[k].values, true, p)
    ensures SumGroups(ptrs, p + 1) == SumGroups(ptrs, p)
  {
    if ptrs != [] {
      SumSame(ptrs[..|ptrs| - 1], p);
    }
  }

  lemma {:induction false} SumMore(ptrs: seq<Ptr>, p: nat, j: nat)
    requires p < DFA_SIZE && j < |ptrs| && ptrs[j].child.Some?
    requires GroupStart(ptrs[j].values, true, p)
    requires forall k :: 0 <= k < |ptrs| && k != j && ptrs[k].child.Some? ==> !GroupStart(ptrs[k].values, true, p)
    ensures SumGroups(ptrs, p + 1) == SumGroups(ptrs, p) + 1
  {
    if j == |ptrs| - 1 {
      SumSame(ptrs[..|ptrs| - 1], p);
    } else {
      SumMore(ptrs[..|ptrs| - 1], p, j);
    }
  }

  /** The targets tell the slots apart. */
  ghost predicate Separate(target: seq<Word>) {
    && (forall i, j :: 0 <= i < j < |target| ==> target[i] != target[j])
    && NoMatch !in target
  }

  /** At each position exactly one of the counted groups starts when a run starts, and none otherwise. */
  lemma RunStep(ptrs: seq<Ptr>, values: set<byte>, target: seq<Word>, dfa: seq<Word>, p: nat)
    requires SlotsOk(ptrs, values) && |target| == |ptrs| && Separate(target) && IsDfa(dfa, ptrs, target)
    requires p < DFA_SIZE
    ensures Groups(values, false, p + 1) + SumGroups(ptrs, p + 1)
         == Groups(values, false, p) + SumGroups(ptrs, p) + if RunStart(dfa, p) then 1 else 0
  {
    var x := At(p);
    var j := SlotOf(ptrs, x);
    assert x in values <==> j < |ptrs|;
    forall k | 0 <= k < |ptrs| && k != j && ptrs[k].child.Some?
      ensures !GroupStart(ptrs[k].values, true, p)
    {
      if x in ptrs[k].values { SlotIs(ptrs, x, k); }
    }
    if j == |ptrs| {
      SumSame(ptrs, p);
      if p > 0 {
        assert dfa[At(p - 1)] == NoMatch <==> At(p - 1) !in values;
      }
    } else {
      if p > 0 {
        SameSlot(ptrs, values, target, dfa, At(p - 1), j);
      }
      if GroupStart(ptrs[j].values, true, p) {
        SumMore(ptrs, p, j);
      } else {
        SumSame(ptrs, p);
      }
    }
  }

  lemma SameSlot(ptrs: seq<Ptr>, values: set<byte>, target: seq<Word>, dfa: seq<Word>, y: byte, j: nat)
    requires SlotsOk(ptrs, values) && |target| == |ptrs| && Separate(target) && IsDfa(dfa, ptrs, target)
    requires j < |ptrs| && ptrs[j].child.Some?
    ensures dfa[y] == target[j] <==> y in ptrs[j].values
  {
    if y in ptrs[j].values { SlotIs(ptrs, y, j); }
    assert dfa[y] == Entry(ptrs, target, y);
    assert target[j] in target;
  }

  lemma {:induction false} RunsCounted(ptrs: seq<Ptr>, values: set<byte>, target: seq<Word>, dfa: seq<Word>, p: nat)
    requires SlotsOk(ptrs, values) && |target| == |ptrs| && Separate(target) && IsDfa(dfa, ptrs, target)
    requires p <= DFA_SIZE
    ensures |Entries(dfa, p)| == Groups(values, false, p) + SumGroups(ptrs, p)
  {
    if p == 0 {
      SumNone(ptrs);
    } else {
      var q := p - 1;
      RunsCounted(ptrs, values, target, dfa, q);
      RunStep(ptrs, values, target, dfa, q);
      assert |Entries(dfa, p)| == |Entries(dfa, q)| + if RunStart(dfa, q) then 1 else 0;
    }
  }

  lemma {:induction false} SumNone(ptrs: seq<Ptr>)
    ensures SumGroups(ptrs, 0) == 0
  {
    if ptrs != [] {
      SumNone(ptrs[..|ptrs| - 1]);
    }
  }

  /** `acl_count_fanout`: the number of runs, whichever separate targets the slots get. */
  method CountFanout(ptrs: seq<Ptr>, values: set<byte>) returns (fanout: nat)
    requires SlotsOk(ptrs, values)
    ensures forall target: seq<Word>, dfa: seq<Word> ::
      |target| == |ptrs| && Separate(target) && IsDfa(dfa, ptrs, target) ==>
      fanout == |Entries(dfa, DFA_SIZE)|
  {
    fanout := CountGroups(values, false);
    for n := 0 to |ptrs|
      invariant fanout == Groups(values, false, DFA_SIZE) + SumGroups(ptrs[..n], DFA_SIZE)
    {
      assert ptrs[..n + 1][..n] == ptrs[..n];
      if ptrs[n].child.Some? {
        var ranges := CountGroups(ptrs[n].values, true);
        fanout := fanout + ranges;
      }
    }
    assert ptrs[..|ptrs|] == ptrs;
    forall target: seq<Word>, dfa: seq<Word> | |target| == |ptrs| && Separate(target) && IsDfa(dfa, ptrs, target)
      ensures fanout == |Entries(dfa, DFA_SIZE)|
    {
      RunsCounted(ptrs, values, target, dfa, DFA_SIZE);
    }
  }

  // ------------------------------------------------------------------- the range node

  /** The range part of `acl_add_ptrs`: one entry per run, and the byte each run but the last ends with. */
  method FillRanges(dfa: seq<Word>) returns (entries: seq<Word>, bounds: seq<byte>)
    requires |dfa| == DFA_SIZE
    ensures entries == Entries(dfa, DFA_SIZE) && bounds == Bounds(dfa, DFA_SIZE)
  {
    var index := dfa[At(0)];
    entries, bounds := [index], [];
    assert Entries(dfa, 0) == [];
    for p := 1 to DFA_SIZE
      invariant entries == Entries(dfa, p) && bounds == Bounds(dfa, p)
      invariant index == dfa[At(p - 1)]
    {
      if dfa[At(p)] != index {
        index := dfa[At(p)];
        entries := entries + [index];
        bounds := bounds + [At(p - 1)];
      }
    }
  }

  /** `c` is the number of boundaries below `x`. */
  ghost predicate IsColumn(bounds: seq<byte>, x: byte, c: nat) {
    && c <= |bounds|
    && (c < |bounds| ==> Pos(x) <= Pos(bounds[c]))
    && (forall j :: 0 <= j < c ==> Pos(bounds[j]) < Pos(x))
  }

  lemma {:induction false} BoundsBelow(dfa: seq<Word>, p: nat)
    requires |dfa| == DFA_SIZE && 1 <= p <= DFA_SIZE
    ensures |Entries(dfa, p)| == |Bounds(dfa, p)| + 1
    ensures forall j :: 0 <= j < |Bounds(dfa, p)| ==> Pos(Bounds(dfa, p)[j]) < p - 1
    ensures Entries(dfa, p)[|Bounds(dfa, p)|] == dfa[At(p - 1)]
  {
    if p > 1 {
      BoundsBelow(dfa, p - 1);
    } else {
      assert Entries(dfa, 0) == [];
    }
  }

  lemma ColumnDrop(bounds: seq<byte>, y: byte, x: byte, c: nat)
    requires IsColumn(bounds + [y], x, c) && Pos(x) <= Pos(y)
    ensures IsColumn(bounds, x, c)
  {
    var more := bounds + [y];
    assert more[|bounds|] == y;
    assert forall j :: 0 <= j < |bounds| ==> more[j] == bounds[j];
  }

  lemma ColumnLast(bounds: seq<byte>, x: byte, c: nat, p: nat)
    requires IsColumn(bounds, x, c) && Pos(x) == p
    requires forall j :: 0 <= j < |bounds| ==> Pos(bounds[j]) < p
    ensures c == |bounds|
  {
  }

  /** Counting boundaries below an input selects the entry of the run it is in. */
  lemma {:induction false} ColumnEntry(dfa: seq<Word>, p: nat, x: byte, c: nat)
    requires |dfa| == DFA_SIZE && 1 <= p <= DFA_SIZE && Pos(x) < p
    requires IsColumn(Bounds(dfa, p), x, c)
    ensures c < |Entries(dfa, p)| && Entries(dfa, p)[c] == dfa[x]
  {
    if Pos(x) == p - 1 {
      BoundsBelow(dfa, p);
      ColumnLast(Bounds(dfa, p), x, c, p - 1);
      assert At(Pos(x)) == x;
    } else {
      var q := p - 1;
      var bs := Bounds(dfa, q);
      if RunStart(dfa, q) {
        assert Bounds(dfa, p) == bs + [At(q - 1)];
        ColumnDrop(bs, At(q - 1), x, c);
      } else {
        assert Bounds(dfa, p) == bs;
      }
      ColumnEntry(dfa, q, x, c);
      assert Entries(dfa, q) <= Entries(dfa, p);
    }
  }

  /** Fill unused boundaries with the largest signed value. */
  function Padded(bounds: seq<byte>): (r: seq<byte>)
    requires |bounds| <= 4
    ensures |r| == 4
    decreases 4 - |bounds|
  {
    if |bounds| == 4 then bounds else Padded(bounds + [127])
  }

  lemma {:induction false} PaddedColumn(bounds: seq<byte>, x: byte, c: nat)
    requires |bounds| <= 4 && IsColumn(Padded(bounds), x, c)
    ensures IsColumn(bounds, x, c)
    decreases 4 - |bounds|
  {
    if |bounds| < 4 {
      var more := bounds + [127];
      PaddedColumn(more, x, c);
      assert Pos(127) == 255;
      assert more[|bounds|] == 127;
      assert forall j :: 0 <= j < |bounds| ==> more[j] == bounds[j];
    }
  }

  /** `scalar_transition` on a range node reads the entry for its input. */
  lemma RangeTarget(dfa: seq<Word>, addr: nat, x: byte)
    requires |dfa| == DFA_SIZE && addr < TYPE
    requires |Bounds(dfa, DFA_SIZE)| <= 4
    ensures var w := Word(QuadBits(Padded(Bounds(dfa, DFA_SIZE))), QRANGE * TYPE + addr);
      var entries := Entries(dfa, DFA_SIZE);
      && 0 <= Target(w, x) - addr < |entries|
      && entries[Target(w, x) - addr] == dfa[x]
  {
    var bounds := Bounds(dfa, DFA_SIZE);
    var hi := QuadBits(Padded(bounds));
    var c := Column(hi, ToBits(x));
    WordParts(hi, QRANGE, addr);
    QuadColumn(Padded(bounds), x);
    PaddedColumn(bounds, x, c);
    ColumnEntry(dfa, DFA_SIZE, x, c);
  }

  // ------------------------------------------------------- before and after resolution

  /** Two arrays that are equal at the same pairs of places. */
  ghost predicate SameShape(a: seq<Word>, b: seq<Word>) {
    |a| == |b| == DFA_SIZE && forall x: byte, y: byte :: a[x] == a[y] <==> b[x] == b[y]
  }

  lemma ShapeOfSlots(ptrs: seq<Ptr>, s: seq<Word>, t: seq<Word>, a: seq<Word>, b: seq<Word>)
    requires |s| == |t| == |ptrs| && Separate(s) && Separate(t)
    requires IsDfa(a, ptrs, s) && IsDfa(b, ptrs, t)
    ensures SameShape(a, b)
  {
    forall x: byte, y: byte ensures a[x] == a[y] <==> b[x] == b[y] {
      SlotsDecide(ptrs, s, a, x, y);
      SlotsDecide(ptrs, t, b, x, y);
    }
  }

  lemma SlotsDecide(ptrs: seq<Ptr>, t: seq<Word>, a: seq<Word>, x: byte, y: byte)
    requires |t| == |ptrs| && Separate(t) && IsDfa(a, ptrs, t)
    ensures a[x] == a[y] <==> SlotOf(ptrs, x) == SlotOf(ptrs, y)
  {
    var i, j := SlotOf(ptrs, x), SlotOf(ptrs, y);
    assert a[x] == Entry(ptrs, t, x) && a[y] == Entry(ptrs, t, y);
    assert i < |ptrs| ==> t[i] in t;
    assert j < |ptrs| ==> t[j] in t;
  }

  lemma {:induction false} ShapeBounds(a: seq<Word>, b: seq<Word>, p: nat)
    requires SameShape(a, b) && 1 <= p <= DFA_SIZE
    ensures Bounds(a, p) == Bounds(b, p)
  {
    if p > 1 {
      ShapeBounds(a, b, p - 1);
    }
  }

  lemma ShapeShares(a: seq<Word>, b: seq<Word>, gr: seq<nat>)
    requires SameShape(a, b) && SharesOnlyEqual(a, gr)
    ensures SharesOnlyEqual(b, gr)
  {
    forall i, j | 0 <= i < 4 && 0 <= j < 4 && gr[i] == gr[j] ensures SameBlock(b, i, j) {
      assert SameBlock(a, i, j);
      var s, t := a[i * 64..i * 64 + 64], a[j * 64..j * 64 + 64];
      var s', t' := b[i * 64..i * 64 + 64], b[j * 64..j * 64 + 64];
      forall k | 0 <= k < 64 ensures s'[k] == t'[k] {
        var x: byte, y: byte := i * 64 + k, j * 64 + k;
        assert s[k] == a[x] && t[k] == a[y];
      }
    }
  }

  lemma OneRun(dfa: seq<Word>, x: byte)
    requires |dfa| == DFA_SIZE && |Entries(dfa, DFA_SIZE)| == 1
    ensures dfa[x] == Entries(dfa, DFA_SIZE)[0]
  {
    BoundsBelow(dfa, DFA_SIZE);
    assert IsColumn(Bounds(dfa, DFA_SIZE), x, 0);
    ColumnEntry(dfa, DFA_SIZE, x, 0);
  }
}
