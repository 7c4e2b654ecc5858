/**
  Encodings of a single node: the 256-entry transition array, its compression to
  groups of 64, and its compression to at most five signed ranges.
*/
module AclNodes {
  import opened Basics
  import opened AclTrie
  import opened AclWord

  // ------------------------------------------------------------- the 256-entry array

  /** The transition on `x`, when slot `k` leads to `target[k]`. */
  function Entry(ptrs: seq<Ptr>, target: seq<Word>, x: byte): Word
    requires |target| == |ptrs|
  {
    var k := SlotOf(ptrs, x);
    if k < |ptrs| then target[k] else NoMatch
  }

  ghost predicate IsDfa(dfa: seq<Word>, ptrs: seq<Ptr>, target: seq<Word>)
    requires |target| == |ptrs|
  {
    |dfa| == DFA_SIZE && forall x: byte :: dfa[x] == Entry(ptrs, target, x)
  }

  /** `acl_node_fill_dfa`. */
  method FillDfa(ptrs: seq<Ptr>, target: seq<Word>) returns (dfa: seq<Word>)
    requires |target| == |ptrs| && Disjoint(ptrs)
    ensures IsDfa(dfa, ptrs, target)
  {
    dfa := seq(DFA_SIZE, _ => NoMatch);
    for k := 0 to |ptrs|
      invariant |dfa| == DFA_SIZE
      invariant forall x: byte :: dfa[x] == if SlotOf(ptrs, x) < k then target[SlotOf(ptrs, x)] else NoMatch
    {
      if ptrs[k].child.None? {
        continue;
      }
      ghost var before := dfa;
      for n := 0 to DFA_SIZE
        invariant |dfa| == DFA_SIZE
        invariant forall x: byte :: dfa[x] == if x < n && x in ptrs[k].values then target[k] else before[x]
      {
        if n in ptrs[k].values {
          dfa := dfa[n := target[k]];
        }
      }
      forall x: byte ensures dfa[x] == if SlotOf(ptrs, x) < k + 1 then target[SlotOf(ptrs, x)] else NoMatch {
        if x in ptrs[k].values { SlotIs(ptrs, x, k); }
      }
    }
  }

  // --------------------------------------------------------------- groups of 64 entries

  predicate SameBlock(dfa: seq<Word>, i: nat, j: nat)
    requires |dfa| == DFA_SIZE && i < 4 && j < 4
  {
    dfa[i * 64..i * 64 + 64] == dfa[j * 64..j * 64 + 64]
  }

  /** Groups stored together hold the same transitions. */
  ghost predicate SharesOnlyEqual(dfa: seq<Word>, gr: seq<nat>) {
    && |dfa| == DFA_SIZE && GroupsOk(gr)
    && forall i, j :: 0 <= i < 4 && 0 <= j < 4 && gr[i] == gr[j] ==> SameBlock(dfa, i, j)
  }

  ghost function Blocks(dfa: seq<Word>): (b: seq<seq<Word>>)
    requires |dfa| == DFA_SIZE
    ensures |b| == 4 && forall i, j :: 0 <= i < 4 && 0 <= j < 4 ==> (b[i] == b[j] <==> SameBlock(dfa, i, j))
  {
    [dfa[0..64], dfa[64..128], dfa[128..192], dfa[192..256]]
  }

  /** The first blocks are numbered from 0 on without a gap, equal ones alike and different ones differently. */
  ghost predicate Numbered<T>(blocks: seq<T>, gr: seq<nat>, count: nat) {
    && |gr| <= |blocks| && count <= |gr|
    && (forall a :: 0 <= a < |gr| ==> gr[a] <= a && gr[a] < count)
    && (forall a, b :: 0 <= a < |gr| && 0 <= b < |gr| ==> (gr[a] == gr[b] <==> blocks[a] == blocks[b]))
    && (forall k :: 0 <= k < count ==> k in gr)
  }

  lemma NumberOld<T>(blocks: seq<T>, gr: seq<nat>, count: nat, j: nat)
    requires Numbered(blocks, gr, count) && j < |gr| < |blocks| && blocks[|gr|] == blocks[j]
    ensures Numbered(blocks, gr + [gr[j]], count)
  {
  }

  lemma NumberNew<T>(blocks: seq<T>, gr: seq<nat>, count: nat)
    requires Numbered(blocks, gr, count) && |gr| < |blocks| && forall k :: 0 <= k < |gr| ==> blocks[|gr|] != blocks[k]
    ensures Numbered(blocks, gr + [count], count + 1)
  {
    assert (gr + [count])[|gr|] == count;
  }

  /** `acl_dfa_count_gr64`: number the distinct groups. */
  method CountGroups64(dfa: seq<Word>) returns (gr: seq<nat>, count: nat)
    requires |dfa| == DFA_SIZE
    ensures SharesOnlyEqual(dfa, gr)
    ensures forall i, j :: 0 <= i < 4 && 0 <= j < 4 && SameBlock(dfa, i, j) ==> gr[i] == gr[j]
    ensures 1 <= count <= 4 && forall i :: 0 <= i < 4 ==> gr[i] < count
    ensures forall k :: 0 <= k < count ==> k in gr
  {
    hide SameBlock;
    ghost var blocks := Blocks(dfa);
    gr, count := [], 0;
    for i := 0 to 4
      invariant |gr| == i && Numbered(blocks, gr, count)
    {
      var j := 0;
      while j != i && !SameBlock(dfa, i, j)
        invariant 0 <= j <= i && forall k :: 0 <= k < j ==> blocks[i] != blocks[k]
      {
        j := j + 1;
      }
      if j != i {
        NumberOld(blocks, gr, count, j);
        gr := gr + [gr[j]];
      } else {
        NumberNew(blocks, gr, count);
        gr := gr + [count];
        count := count + 1;
      }
    }
    assert gr[0] < count;
  }

  /** Where an entry of the uncompressed array is stored. */
  function Place(gr: seq<nat>, x: byte): nat
    requires GroupsOk(gr)
  {
    64 * gr[x / 64] + x % 64
  }

  lemma SharedEntries(dfa: seq<Word>, gr: seq<nat>, x: byte, y: byte)
    requires SharesOnlyEqual(dfa, gr) && Place(gr, x) == Place(gr, y)
    ensures dfa[x] == dfa[y]
  {
    var i, j, k := x / 64, y / 64, x % 64;
    assert gr[i] == gr[j] && y % 64 == k;
    assert SameBlock(dfa, i, j);
    assert dfa[i * 64..i * 64 + 64][k] == dfa[x];
    assert dfa[j * 64..j * 64 + 64][k] == dfa[y];
  }
}
