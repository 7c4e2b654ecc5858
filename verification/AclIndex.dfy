/**
  Layout of the input: the first group is one byte, every other group is four
  consecutive bytes. Dropping groups keeps this, and the data indexes lead the
  search engine to exactly the bytes of the remaining fields.
*/
module AclIndex {
  import opened AclTrie
  import opened AclRules
  import opened AclConfig

  /** The fields of a group are adjacent and fill `width` bytes. */
  ghost predicate GroupOk(group: seq<FieldDef>, width: nat) {
    && group != []
    && (forall n :: 0 <= n < |group| ==> group[n].size > 0)
    && (forall n :: 0 < n < |group| ==> group[n].offset == group[n - 1].offset + group[n - 1].size)
    && group[|group| - 1].offset + group[|group| - 1].size == group[0].offset + width
  }

  function Width(first: bool): nat {
    if first then 1 else 4
  }

  /** The layout that the search loop demands of a configuration. */
  ghost predicate Aligned(defs: seq<FieldDef>, first: bool)
    decreases |defs|
  {
    if defs == [] then !first
    else
      var k := RunLen(defs);
      && GroupOk(defs[..k], Width(first))
      && (forall n :: k <= n < |defs| ==> defs[0].inputIndex < defs[n].inputIndex)
      && Aligned(defs[k..], false)
  }

  lemma {:induction false} KeptFromDefs(defs: seq<FieldDef>, wild: seq<bool>, first: bool)
    requires |wild| == |defs|
    ensures forall def :: def in Kept(defs, wild, first) ==> def in defs
    ensures forall n :: 0 <= n < |defs| && !wild[n] ==> defs[n] in Kept(defs, wild, first)
    decreases |defs|
  {
    if defs != [] {
      var k := RunLen(defs);
      var head, tail := defs[..k], Kept(defs[k..], wild[k..], false);
      KeptFromDefs(defs[k..], wild[k..], false);
      assert forall def :: def in tail ==> def in defs[k..];
      forall n | 0 <= n < |defs| && !wild[n]
        ensures defs[n] in Kept(defs, wild, first)
      {
        if n < k {
          assert !wild[..k][n] && head[n] == defs[n];
        } else {
          assert !wild[k..][n - k] && defs[k..][n - k] == defs[n];
          assert defs[n] in tail;
        }
      }
    }
  }

  lemma AlignedCons(head: seq<FieldDef>, tail: seq<FieldDef>, first: bool)
    requires GroupOk(head, Width(first)) && Aligned(tail, false)
    requires forall n :: 0 <= n < |head| ==> head[n].inputIndex == head[0].inputIndex
    requires forall n :: 0 <= n < |tail| ==> head[0].inputIndex < tail[n].inputIndex
    ensures Aligned(head + tail, first)
  {
    hide Aligned, GroupOk, RunLen;
    var all, k := head + tail, |head|;
    HeadSize(head, Width(first));
    assert all[..k] == head && all[k..] == tail;
    assert forall n :: 0 <= n < k ==> all[n] == head[n];
    assert forall n :: k <= n < |all| ==> all[n] == tail[n - k];
    RunIs(all, k);
    AlignedFold(all, first, k);
  }

  lemma HeadSize(head: seq<FieldDef>, width: nat)
    requires GroupOk(head, width)
    ensures head != []
  {
  }

  lemma AlignedFold(defs: seq<FieldDef>, first: bool, k: nat)
    requires defs != [] && k == RunLen(defs) && GroupOk(defs[..k], Width(first)) && Aligned(defs[k..], false)
    requires forall n :: k <= n < |defs| ==> defs[0].inputIndex < defs[n].inputIndex
    ensures Aligned(defs, first)
  {
  }

  /** Dropping groups keeps the layout. */
  lemma {:induction false} KeptAligned(defs: seq<FieldDef>, wild: seq<bool>, first: bool)
    requires |wild| == |defs| && Aligned(defs, first)
    ensures Aligned(Kept(defs, wild, first), first)
    decreases |defs|
  {
    if defs != [] {
      var k := RunLen(defs);
      var tail := Kept(defs[k..], wild[k..], false);
      KeptAligned(defs[k..], wild[k..], false);
      if first || !AllTrue(wild[..k]) {
        AlignedParts(defs, first, k);
        KeptAbove(defs[k..], wild[k..], defs[0].inputIndex);
        AlignedCons(defs[..k], tail, first);
        KeptStep(defs, wild, first, k, false);
      } else {
        KeptStep(defs, wild, first, k, true);
        assert [] + tail == tail;
      }
    }
  }

  lemma AlignedParts(defs: seq<FieldDef>, first: bool, k: nat)
    requires defs != [] && Aligned(defs, first) && k == RunLen(defs)
    ensures GroupOk(defs[..k], Width(first))
    ensures forall n :: 0 <= n < k ==> defs[..k][n].inputIndex == defs[..k][0].inputIndex
    ensures forall n :: 0 <= n < |defs| - k ==> defs[0].inputIndex < defs[k..][n].inputIndex
  {
  }

  lemma KeptAbove(defs: seq<FieldDef>, wild: seq<bool>, index: nat)
    requires |wild| == |defs| && forall n :: 0 <= n < |defs| ==> index < defs[n].inputIndex
    ensures forall n :: 0 <= n < |Kept(defs, wild, false)| ==> index < Kept(defs, wild, false)[n].inputIndex
  {
    KeptFromDefs(defs, wild, false);
    var kept := Kept(defs, wild, false);
    forall n | 0 <= n < |kept| ensures index < kept[n].inputIndex {
      assert kept[n] in defs;
    }
  }

  // --------------------------------------------------------------------- data indexes

  /** Offsets of the first field of every group. */
  function Index(defs: seq<FieldDef>): (di: seq<nat>) {
    if defs == [] then [] else [defs[0].offset] + Index(defs[RunLen(defs)..])
  }

  /** The bytes that the search engine reads: one, then four for every further index. */
  ghost function RunKey(di: seq<nat>, pkt: seq<byte>, first: bool): seq<byte> {
    if di == [] then []
    else if di[0] + Width(first) > |pkt| then []
    else pkt[di[0]..di[0] + Width(first)] + RunKey(di[1..], pkt, false)
  }

  lemma {:induction false} FieldKeyConcat(a: seq<FieldDef>, b: seq<FieldDef>, pkt: seq<byte>)
    requires Fits(a + b, pkt)
    ensures Fits(a, pkt) && Fits(b, pkt)
    ensures FieldKey(a + b, pkt) == FieldKey(a, pkt) + FieldKey(b, pkt)
    decreases |b|
  {
    hide FieldKey, Fits;
    FitsParts(a, b, pkt);
    if b == [] {
      assert a + b == a;
      NoFields(pkt);
      assert FieldKey(a, pkt) + [] == FieldKey(a, pkt);
    } else {
      var n := |b| - 1;
      assert (a + b)[..|a| + n] == a + b[..n] && (a + b)[|a| + n] == b[n];
      FieldKeySnoc(a + b, pkt);
      FieldKeySnoc(b, pkt);
      FieldKeyConcat(a, b[..n], pkt);
      Assoc(FieldKey(a, pkt), FieldKey(b[..n], pkt), Slice(b[n], pkt));
    }
  }

  lemma Assoc(a: seq<byte>, b: seq<byte>, c: seq<byte>)
    ensures a + (b + c) == (a + b) + c
  {
  }

  lemma FitsParts(a: seq<FieldDef>, b: seq<FieldDef>, pkt: seq<byte>)
    requires Fits(a + b, pkt)
    ensures Fits(a, pkt) && Fits(b, pkt)
  {
    assert forall n :: 0 <= n < |a| ==> (a + b)[n] == a[n];
    assert forall n :: 0 <= n < |b| ==> (a + b)[|a| + n] == b[n];
  }

  lemma NoFields(pkt: seq<byte>)
    ensures Fits([], pkt) && FieldKey([], pkt) == []
  {
  }

  lemma FieldKeySnoc(defs: seq<FieldDef>, pkt: seq<byte>)
    requires defs != [] && Fits(defs, pkt)
    ensures var n := |defs| - 1;
      && Fits(defs[..n], pkt) && defs[n].offset + defs[n].size <= |pkt|
      && FieldKey(defs, pkt) == FieldKey(defs[..n], pkt) + Slice(defs[n], pkt)
  {
  }

  lemma {:induction false} GroupKey(group: seq<FieldDef>, width: nat, pkt: seq<byte>)
    requires GroupOk(group, width) && Fits(group, pkt)
    ensures FieldKey(group, pkt) == pkt[group[0].offset..group[0].offset + width]
    decreases |group|
  {
    hide FieldKey;
    var n := |group| - 1;
    FieldKeySnoc(group, pkt);
    if n == 0 {
      NoFields(pkt);
      assert group[..0] == [] && [] + Slice(group[0], pkt) == Slice(group[0], pkt);
    } else {
      assert group[n].offset == group[n - 1].offset + group[n - 1].size;
      GroupMonotone(group, width, n);
      var o, m, e := group[0].offset, group[n].offset, group[0].offset + width;
      GroupKey(group[..n], m - o, pkt);
      assert pkt[o..m] + pkt[m..e] == pkt[o..e];
    }
  }

  lemma {:induction false} GroupMonotone(group: seq<FieldDef>, width: nat, n: nat)
    requires GroupOk(group, width) && n < |group|
    ensures group[0].offset <= group[n].offset
  {
    if n > 0 { GroupMonotone(group, width, n - 1); }
  }

  /** The engine reads the bytes of the fields, in order. */
  lemma {:induction false} IndexKey(defs: seq<FieldDef>, pkt: seq<byte>, first: bool)
    requires Aligned(defs, first) && Fits(defs, pkt)
    ensures RunKey(Index(defs), pkt, first) == FieldKey(defs, pkt)
    decreases |defs|
  {
    hide FieldKey, GroupOk;
    if defs == [] {
      NoFields(pkt);
    } else {
      var k := RunLen(defs);
      IndexFits(defs, pkt, first);
      assert defs == defs[..k] + defs[k..];
      FieldKeyConcat(defs[..k], defs[k..], pkt);
      GroupKey(defs[..k], Width(first), pkt);
      IndexKey(defs[k..], pkt, false);
      assert Index(defs)[1..] == Index(defs[k..]);
    }
  }

  /** All reads of the engine are within the packet. */
  lemma {:induction false} IndexFits(defs: seq<FieldDef>, pkt: seq<byte>, first: bool)
    requires Aligned(defs, first) && Fits(defs, pkt)
    ensures forall j :: 0 <= j < |Index(defs)| ==> Index(defs)[j] + Width(first && j == 0) <= |pkt|
    decreases |defs|
  {
    if defs != [] {
      var k := RunLen(defs);
      var head := defs[..k];
      assert head[k - 1].offset + head[k - 1].size <= |pkt|;
      IndexFits(defs[k..], pkt, false);
      assert Index(defs)[1..] == Index(defs[k..]);
      forall j | 0 < j < |Index(defs)| ensures Index(defs)[j] + 4 <= |pkt| {
        assert Index(defs)[j] == Index(defs[k..])[j - 1];
      }
    }
  }

  /** The number of bytes read: one, and four for every further index. */
  lemma {:induction false} AlignedSize(defs: seq<FieldDef>, first: bool)
    requires Aligned(defs, first)
    ensures Sum(Sizes(defs)) == if defs == [] then 0 else Width(first) + 4 * (|Index(defs)| - 1)
    ensures defs == [] <==> Index(defs) == []
    decreases |defs|
  {
    hide Sum, Sizes, Index;
    if defs == [] {
      SumOfNone();
      IndexOfNone();
    } else {
      var k := RunLen(defs);
      IndexStep(defs);
      AlignedSize(defs[k..], false);
      SumConcat(defs[..k], defs[k..]);
      assert defs == defs[..k] + defs[k..];
      GroupSize(defs[..k], Width(first));
    }
  }

  lemma IndexOfNone()
    ensures Index([]) == []
  {
  }

  lemma SumOfNone()
    ensures Sum(Sizes([])) == 0
  {
  }

  lemma {:induction false} SumConcat(a: seq<FieldDef>, b: seq<FieldDef>)
    ensures Sum(Sizes(a + b)) == Sum(Sizes(a)) + Sum(Sizes(b))
    decreases |b|
  {
    if b == [] {
      assert a + b == a;
    } else {
      var n := |b| - 1;
      SumConcat(a, b[..n]);
      assert Sizes(a + b)[..|a| + n] == Sizes(a + b[..n]);
      assert Sizes(b)[..n] == Sizes(b[..n]);
    }
  }

  lemma {:induction false} GroupSize(group: seq<FieldDef>, width: nat)
    requires GroupOk(group, width)
    ensures Sum(Sizes(group)) == width
    decreases |group|
  {
    var n := |group| - 1;
    assert Sizes(group)[..n] == Sizes(group[..n]);
    if n > 0 {
      GroupMonotone(group, width, n);
      GroupSize(group[..n], group[n].offset - group[0].offset);
    }
  }

  /** `acl_build_index`. */
  method BuildIndex(defs: seq<FieldDef>) returns (di: seq<nat>)
    ensures di == Index(defs)
  {
    di := [];
    var lastHeader: int := -1;
    ghost var start, init := 0, [];
    for n := 0 to |defs|
      invariant 0 <= start <= n
      invariant lastHeader == -1 <==> n == 0
      invariant n > 0 ==> start < n && forall m :: start <= m < n ==> defs[m].inputIndex == lastHeader
      invariant n == 0 ==> di == []
      invariant n > 0 ==> di == init + [defs[start].offset] && Index(defs) == init + Index(defs[start..])
    {
      if lastHeader != defs[n].inputIndex {
        if n > 0 {
          NextGroup(defs, init, start, n);
        } else {
          assert defs[0..] == defs;
        }
        lastHeader := defs[n].inputIndex;
        init := di;
        di := di + [defs[n].offset];
        start := n;
      }
    }
    if defs != [] {
      NextGroup(defs, init, start, |defs|);
      assert defs[|defs|..] == [];
    }
  }

  lemma NextGroup(defs: seq<FieldDef>, init: seq<nat>, start: nat, n: nat)
    requires start < n <= |defs|
    requires forall m :: start <= m < n ==> defs[m].inputIndex == defs[start].inputIndex
    requires n < |defs| ==> defs[n].inputIndex != defs[n - 1].inputIndex
    requires Index(defs) == init + Index(defs[start..])
    ensures Index(defs) == init + [defs[start].offset] + Index(defs[n..])
  {
    IndexFrom(defs, start, n);
    Reassociate(Index(defs), init, Index(defs[start..]), [defs[start].offset], Index(defs[n..]));
  }

  lemma IndexFrom(defs: seq<FieldDef>, start: nat, n: nat)
    requires start < n <= |defs|
    requires forall m :: start <= m < n ==> defs[m].inputIndex == defs[start].inputIndex
    requires n < |defs| ==> defs[n].inputIndex != defs[n - 1].inputIndex
    ensures Index(defs[start..]) == [defs[start].offset] + Index(defs[n..])
  {
    hide Index, RunLen;
    RunIs(defs[start..], n - start);
    SliceSplit(defs, start, n);
    IndexStep(defs[start..]);
  }

  lemma IndexStep(defs: seq<FieldDef>)
    requires defs != []
    ensures Index(defs) == [defs[0].offset] + Index(defs[RunLen(defs)..])
  {
  }
}
