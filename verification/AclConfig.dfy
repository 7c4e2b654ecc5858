/**
  From a rule set to tries: wildness of fields, dropping of input groups that are
  always wild, sorting by wildness, and splitting into several tries.
*/
module AclConfig {
  import opened Basics
  import opened AclTrie
  import opened AclField
  import opened AclRules

  // ------------------------------------------------------------------------ wildness

  function PopCount(x: nat): (r: nat)
    ensures r == 0 <==> x == 0
  {
    if x == 0 then 0 else PopCount(x / 2) + x % 2
  }

  /** How wild a field is, in whole percent. */
  function Wildness(def: FieldDef, f: Field): int
    requires def.size > 0
  {
    var bits := 8 * def.size;
    match def.kind
    case BitmaskKind => 100 * (bits - PopCount(Low(f.maskRange, def.size))) / bits
    case MaskKind => 100 * (bits - PrefixLen(f)) / bits
    case RangeKind =>
      Pow2Mono(1, bits);
      100 * (Low(f.maskRange, def.size) - Low(f.value, def.size)) / (Pow2(bits) - 1)
  }

  lemma FullPercent(x: int, n: nat)
    requires n > 0 && x <= n && 100 * x / n >= 100
    ensures x == n
  {
  }

  /** A field of wildness 100 matches everything. */
  lemma WildMatchesAll(def: FieldDef, f: Field, s: seq<byte>)
    requires ValidField(def, f) && |s| == def.size && Wildness(def, f) >= 100
    ensures FieldMatches(def, f, s)
  {
    var bits := 8 * def.size;
    Pow2Mono(1, bits);
    match def.kind
    case BitmaskKind =>
      FullPercent(bits - PopCount(Low(f.maskRange, def.size)), bits);
    case MaskKind =>
      FullPercent(bits - PrefixLen(f), bits);
      SmallMod(BigEndian(s), 0, BigEndian(s), Pow2(bits));
      SmallMod(Low(f.value, def.size), 0, Low(f.value, def.size), Pow2(bits));
    case RangeKind =>
      FullPercent(Low(f.maskRange, def.size) - Low(f.value, def.size), Pow2(bits) - 1);
  }

  lemma {:induction false} AndSwap(x: nat, y: nat)
    ensures BitAnd(x, y) == BitAnd(y, x)
  {
    if x != 0 && y != 0 { AndSwap(x / 2, y / 2); }
  }

  lemma Extremes(size: nat)
    ensures BigEndian(Fill(0, size)) == 0 && BigEndian(Fill(255, size)) == Pow2(8 * size) - 1
  {
    BigEndianFill(0, size);
    BigEndianFill(255, size);
    LittleEndianFill(Fill(0, size));
    LittleEndianFill(Fill(255, size));
  }

  /** A prefix tells the extremes apart. */
  lemma PrefixTells(bits: nat, len: nat)
    requires 0 < len <= bits
    ensures Pow2(bits) - 1 >= 0 && (Pow2(bits) - 1) / Pow2(bits - len) > 0
  {
    Pow2Mono(bits - len, bits - 1);
    var m, n: nat := Pow2(bits - len), Pow2(bits) - 1;
    assert m <= n;
    SmallQuotient(n, m);
  }

  lemma SmallQuotient(n: nat, m: nat)
    requires 0 < m <= n
    ensures n / m > 0
  {
  }

  lemma AllPercent(n: nat)
    requires n > 0
    ensures 100 * n / n == 100
  {
    SmallMod(100 * n, 100, 0, n);
  }

  /** A mask that does not tell the extremes apart is empty. */
  lemma NoMask(mask: nat, v: nat, bits: nat)
    requires mask < Pow2(bits) && BitAnd(0, mask) == BitAnd(v, mask) && BitAnd(Pow2(bits) - 1, mask) == BitAnd(v, mask)
    ensures mask == 0
  {
    AndOnes(mask, bits);
    AndSwap(mask, Pow2(bits) - 1);
  }

  lemma ExtremesMatchWild(def: FieldDef, f: Field)
    requires ValidField(def, f) && FieldMatches(def, f, Fill(0, def.size)) && FieldMatches(def, f, Fill(255, def.size))
    ensures Wildness(def, f) >= 100
  {
    hide BitAnd, Pow2, BigEndian, PopCount, Boxable;
    var bits := 8 * def.size;
    AtLeastTwo(bits);
    Extremes(def.size);
    match def.kind
    case BitmaskKind =>
      NoMask(Low(f.maskRange, def.size), Low(f.value, def.size), bits);
      AllPercent(bits);
    case MaskKind =>
      if PrefixLen(f) > 0 { PrefixTells(bits, PrefixLen(f)); }
      SmallQuotientZero(Pow2(bits - PrefixLen(f)));
      AllPercent(bits);
    case RangeKind =>
      AllPercent(Pow2(bits) - 1);
  }

  lemma AtLeastTwo(bits: nat)
    requires bits > 0
    ensures Pow2(bits) >= 2
  {
    Pow2Mono(1, bits);
  }

  lemma SmallQuotientZero(m: nat)
    requires m > 0
    ensures 0 / m == 0
  {
  }

  /** Wildness 100 means that the field matches everything. */
  lemma WildIff(def: FieldDef, f: Field)
    requires ValidField(def, f)
    ensures Wildness(def, f) >= 100 <==> forall s: seq<byte> :: |s| == def.size ==> FieldMatches(def, f, s)
  {
    if Wildness(def, f) >= 100 {
      forall s: seq<byte> | |s| == def.size ensures FieldMatches(def, f, s) {
        WildMatchesAll(def, f, s);
      }
    } else if forall s: seq<byte> :: |s| == def.size ==> FieldMatches(def, f, s) {
      ExtremesMatchWild(def, f);
    }
  }

  /** Wildness of field definition `def` in rule `r`. */
  function WildnessIn(def: FieldDef, r: Rule): int
    requires def.size > 0 && def.fieldIndex < |r.fields|
  {
    Wildness(def, r.fields[def.fieldIndex])
  }

  // ------------------------------------------------------------------------- packets

  /** Every field lies within the packet. */
  predicate Fits(defs: seq<FieldDef>, pkt: seq<byte>) {
    forall n :: 0 <= n < |defs| ==> defs[n].offset + defs[n].size <= |pkt|
  }

  function Slice(def: FieldDef, pkt: seq<byte>): (s: seq<byte>)
    requires def.offset + def.size <= |pkt|
    ensures |s| == def.size
  {
    pkt[def.offset..def.offset + def.size]
  }

  /** Does the rule match the packet? The specification of the classifier. */
  ghost predicate PacketMatches(defs: seq<FieldDef>, r: Rule, pkt: seq<byte>)
    requires ValidRule(defs, r) && Fits(defs, pkt)
  {
    forall n :: 0 <= n < |defs| ==> RuleLangs(defs, r)[n](Slice(defs[n], pkt))
  }

  /** The bytes of all fields, one after the other. */
  function FieldKey(defs: seq<FieldDef>, pkt: seq<byte>): (s: seq<byte>)
    requires Fits(defs, pkt)
    ensures |s| == Sum(Sizes(defs))
  {
    if defs == [] then []
    else
      var n := |defs| - 1;
      assert Sizes(defs)[..n] == Sizes(defs[..n]);
      FieldKey(defs[..n], pkt) + Slice(defs[n], pkt)
  }

  /** Testing the concatenated bytes is testing field by field. */
  lemma {:induction false} ChainAcceptsPacket(defs: seq<FieldDef>, langs: seq<Lang>, pkt: seq<byte>)
    requires |defs| == |langs| && Fits(defs, pkt)
    ensures ChainAccepts(Sizes(defs), langs, FieldKey(defs, pkt)) <==>
      forall n :: 0 <= n < |defs| ==> langs[n](Slice(defs[n], pkt))
  {
    if defs != [] {
      var k := |defs| - 1;
      var sizes, s := Sizes(defs), FieldKey(defs, pkt);
      assert sizes[..k] == Sizes(defs[..k]);
      ChainAcceptsPacket(defs[..k], langs[..k], pkt);
      var cut := Sum(sizes[..k]);
      assert s[..cut] == FieldKey(defs[..k], pkt) && s[cut..] == Slice(defs[k], pkt);
      assert forall n :: 0 <= n < k ==> defs[..k][n] == defs[n] && langs[..k][n] == langs[n];
    }
  }

  /** A rule matches a packet if it matches the bytes of its fields. */
  lemma KeyMatchesPacket(defs: seq<FieldDef>, r: Rule, pkt: seq<byte>)
    requires ValidRule(defs, r) && Fits(defs, pkt)
    ensures KeyMatches(defs, r, FieldKey(defs, pkt)) <==> PacketMatches(defs, r, pkt)
  {
    ChainAcceptsPacket(defs, RuleLangs(defs, r), pkt);
  }

  // -------------------------------------------------------------- dropping wild groups

  /** Is the field completely wild in all rules? */
  predicate AllWild(def: FieldDef, rules: seq<Rule>)
    requires def.size > 0 && forall q :: q in rules ==> def.fieldIndex < |q.fields|
  {
    forall q :: q in rules ==> WildnessIn(def, q) >= 100
  }

  /** Number of leading fields that share an input index. */
  function RunLen(defs: seq<FieldDef>): (k: nat)
    requires defs != []
    ensures 0 < k <= |defs|
    ensures forall n :: 0 <= n < k ==> defs[n].inputIndex == defs[0].inputIndex
    ensures k < |defs| ==> defs[k].inputIndex != defs[k - 1].inputIndex
  {
    if |defs| == 1 || defs[1].inputIndex != defs[0].inputIndex then 1 else 1 + RunLen(defs[1..])
  }

  lemma {:induction false} RunIs(defs: seq<FieldDef>, k: nat)
    requires 0 < k <= |defs|
    requires forall n :: 0 <= n < k ==> defs[n].inputIndex == defs[0].inputIndex
    requires k < |defs| ==> defs[k].inputIndex != defs[k - 1].inputIndex
    ensures RunLen(defs) == k
  {
    if k > 1 {
      assert defs[1].inputIndex == defs[0].inputIndex;
      RunIs(defs[1..], k - 1);
    }
  }

  predicate AllTrue(b: seq<bool>) {
    forall n :: 0 <= n < |b| ==> b[n]
  }

  /** The fields that stay: all but the input groups, after the first, that are always wild. */
  function Kept(defs: seq<FieldDef>, wild: seq<bool>, first: bool): (kept: seq<FieldDef>)
    requires |wild| == |defs|
    ensures |kept| <= |defs|
    decreases |defs|
  {
    if defs == [] then []
    else
      var k := RunLen(defs);
      (if !first && AllTrue(wild[..k]) then [] else defs[..k]) + Kept(defs[k..], wild[k..], false)
  }

  function Repeat(b: bool, n: nat): (r: seq<bool>)
    ensures |r| == n && forall i :: 0 <= i < n ==> r[i] == b
  {
    seq(n, _ => b)
  }

  /** The fields that are not marked. */
  function Unmarked(defs: seq<FieldDef>, marks: seq<bool>): seq<FieldDef>
    requires |marks| == |defs|
  {
    if defs == [] then []
    else
      var n := |defs| - 1;
      Unmarked(defs[..n], marks[..n]) + (if marks[n] then [] else [defs[n]])
  }

  lemma {:induction false} UnmarkedGroup(defs: seq<FieldDef>, marks: seq<bool>, group: seq<FieldDef>, mark: bool)
    requires |marks| == |defs|
    ensures Unmarked(defs + group, marks + Repeat(mark, |group|)) == Unmarked(defs, marks) + if mark then [] else group
    decreases |group|
  {
    var n := |group| - 1;
    if group == [] {
      assert defs + group == defs && marks + Repeat(mark, |group|) == marks;
    } else {
      UnmarkedGroup(defs, marks, group[..n], mark);
      assert (defs + group)[..|defs| + n] == defs + group[..n];
      assert (marks + Repeat(mark, |group|))[..|defs| + n] == marks + Repeat(mark, n);
      assert group == group[..n] + [group[n]];
    }
  }

  /** The tallies of one field: is it completely wild in all rules? */
  method TallyWild(def: FieldDef, rules: seq<Rule>) returns (wild: bool)
    requires def.size > 0 && forall q :: q in rules ==> def.fieldIndex < |q.fields|
    ensures wild <==> AllWild(def, rules)
  {
    var tally0, tally100 := 0, 0;
    for k := 0 to |rules|
      invariant tally100 <= tally0 == k
      invariant tally100 == tally0 <==> forall j :: 0 <= j < k ==> WildnessIn(def, rules[j]) >= 100
    {
      tally0 := tally0 + 1;
      if WildnessIn(def, rules[k]) >= 100 {
        tally100 := tally100 + 1;
      }
    }
    wild := tally100 == tally0;
  }

  predicate StatsApply(defs: seq<FieldDef>, rules: seq<Rule>) {
    forall n :: 0 <= n < |defs| ==> defs[n].size > 0 && forall q :: q in rules ==> defs[n].fieldIndex < |q.fields|
  }

  /** Which fields are completely wild in all rules. */
  ghost function WildFields(defs: seq<FieldDef>, rules: seq<Rule>): (wild: seq<bool>)
    requires StatsApply(defs, rules)
    ensures |wild| == |defs| && forall n :: 0 <= n < |defs| ==> (wild[n] <==> AllWild(defs[n], rules))
  {
    seq(|defs|, n requires 0 <= n < |defs| => AllWild(defs[n], rules))
  }

  method FindWild(rules: seq<Rule>, defs: seq<FieldDef>) returns (wild: seq<bool>)
    requires StatsApply(defs, rules)
    ensures wild == WildFields(defs, rules)
  {
    wild := [];
    for n := 0 to |defs|
      invariant |wild| == n && forall j :: 0 <= j < n ==> (wild[j] <==> AllWild(defs[j], rules))
    {
      var w := TallyWild(defs[n], rules);
      wild := wild + [w];
    }
  }

  /** `acl_rule_stats`: drop from the configuration what no rule looks at. */
  method RuleStats(rules: seq<Rule>, defs: seq<FieldDef>) returns (kept: seq<FieldDef>)
    requires defs != [] && StatsApply(defs, rules)
    ensures kept == Kept(defs, WildFields(defs, rules), true)
  {
    hide Kept, AllWild, RunLen;
    var always := FindWild(rules, defs);
    var drop := MarkGroups(defs, always);
    kept := [];
    for k := 0 to |defs|
      invariant kept == Unmarked(defs[..k], drop[..k])
    {
      TakeSnoc(defs, k);
      TakeSnoc(drop, k);
      assert defs[..k + 1][..k] == defs[..k] && drop[..k + 1][..k] == drop[..k];
      if !drop[k] {
        kept := kept + [defs[k]];
      }
    }
    assert defs[..|defs|] == defs && drop[..|defs|] == drop;
  }

  /** The fields before `start` are marked as they should be. */
  ghost predicate MarkedUpTo(defs: seq<FieldDef>, wild: seq<bool>, drop: seq<bool>, start: nat)
    requires |wild| == |defs| && start == |drop| <= |defs|
  {
    Kept(defs, wild, true) == Unmarked(defs[..start], drop) + Kept(defs[start..], wild[start..], start == 0)
  }

  /** Mark the groups to drop, in one pass over the fields. */
  method MarkGroups(defs: seq<FieldDef>, wild: seq<bool>) returns (drop: seq<bool>)
    requires defs != [] && |wild| == |defs|
    ensures |drop| == |defs| && Unmarked(defs, drop) == Kept(defs, wild, true)
  {
    hide MarkedUpTo, Kept, Unmarked;
    drop := [];
    var start, deactivate := 0, false;
    MarkStart(defs, wild);
    for n := 1 to |defs|
      invariant 0 <= start == |drop| < n
      invariant forall m :: start <= m < n ==> defs[m].inputIndex == defs[start].inputIndex
      invariant deactivate <==> start != 0 && forall m :: start <= m < n ==> wild[m]
      invariant MarkedUpTo(defs, wild, drop, start)
    {
      if defs[n].inputIndex != defs[n - 1].inputIndex {
        drop := CloseGroup(defs, wild, drop, start, n, deactivate);
        start, deactivate := n, true;
      }
      if !wild[n] {
        deactivate := false;
      }
    }
    drop := CloseGroup(defs, wild, drop, start, |defs|, deactivate);
    MarkEnd(defs, wild, drop);
  }

  method CloseGroup(defs: seq<FieldDef>, ghost wild: seq<bool>, drop0: seq<bool>, start: nat, n: nat, deactivate: bool)
    returns (drop: seq<bool>)
    requires |wild| == |defs| && start == |drop0| < n <= |defs|
    requires forall m :: start <= m < n ==> defs[m].inputIndex == defs[start].inputIndex
    requires n < |defs| ==> defs[n].inputIndex != defs[n - 1].inputIndex
    requires deactivate <==> start != 0 && forall m :: start <= m < n ==> wild[m]
    requires MarkedUpTo(defs, wild, drop0, start)
    ensures |drop| == n && MarkedUpTo(defs, wild, drop, n)
  {
    GroupMarked(defs, wild, drop0, start, n, deactivate);
    drop := drop0 + Repeat(deactivate, n - start);
  }

  lemma MarkStart(defs: seq<FieldDef>, wild: seq<bool>)
    requires |wild| == |defs|
    ensures MarkedUpTo(defs, wild, [], 0)
  {
    assert defs[0..] == defs && wild[0..] == wild && defs[..0] == [];
  }

  lemma MarkEnd(defs: seq<FieldDef>, wild: seq<bool>, drop: seq<bool>)
    requires |wild| == |defs| == |drop| > 0 && MarkedUpTo(defs, wild, drop, |defs|)
    ensures Unmarked(defs, drop) == Kept(defs, wild, true)
  {
    assert defs[..|defs|] == defs && defs[|defs|..] == [] && wild[|defs|..] == [];
  }

  lemma KeptStep(defs: seq<FieldDef>, wild: seq<bool>, first: bool, k: nat, deactivate: bool)
    requires |wild| == |defs| && 0 < k <= |defs| && RunLen(defs) == k
    requires deactivate <==> !first && AllTrue(wild[..k])
    ensures Kept(defs, wild, first) == (if deactivate then [] else defs[..k]) + Kept(defs[k..], wild[k..], false)
  {
  }

  lemma GroupMarked(defs: seq<FieldDef>, wild: seq<bool>, drop: seq<bool>, start: nat, n: nat, deactivate: bool)
    requires |wild| == |defs| && start == |drop| < n <= |defs|
    requires forall m :: start <= m < n ==> defs[m].inputIndex == defs[start].inputIndex
    requires n < |defs| ==> defs[n].inputIndex != defs[n - 1].inputIndex
    requires deactivate <==> start != 0 && forall m :: start <= m < n ==> wild[m]
    requires MarkedUpTo(defs, wild, drop, start)
    ensures MarkedUpTo(defs, wild, drop + Repeat(deactivate, n - start), n)
  {
    var group := if deactivate then [] else defs[start..n];
    KeptFrom(defs, wild, start, n, deactivate);
    UnmarkedTo(defs, drop, start, n, deactivate);
    Reassociate(Kept(defs, wild, true), Unmarked(defs[..start], drop), Kept(defs[start..], wild[start..], start == 0),
                group, Kept(defs[n..], wild[n..], false));
  }

  lemma KeptFrom(defs: seq<FieldDef>, wild: seq<bool>, start: nat, n: nat, deactivate: bool)
    requires |wild| == |defs| && start < n <= |defs|
    requires forall m :: start <= m < n ==> defs[m].inputIndex == defs[start].inputIndex
    requires n < |defs| ==> defs[n].inputIndex != defs[n - 1].inputIndex
    requires deactivate <==> start != 0 && forall m :: start <= m < n ==> wild[m]
    ensures Kept(defs[start..], wild[start..], start == 0) ==
      (if deactivate then [] else defs[start..n]) + Kept(defs[n..], wild[n..], false)
  {
    AllTrueSlice(wild, start, n);
    RunIs(defs[start..], n - start);
    KeptStep(defs[start..], wild[start..], start == 0, n - start, deactivate);
    SliceSplit(defs, start, n);
    SliceSplit(wild, start, n);
  }

  lemma UnmarkedTo(defs: seq<FieldDef>, drop: seq<bool>, start: nat, n: nat, deactivate: bool)
    requires start == |drop| < n <= |defs|
    ensures Unmarked(defs[..n], drop + Repeat(deactivate, n - start)) ==
      Unmarked(defs[..start], drop) + if deactivate then [] else defs[start..n]
  {
    UnmarkedGroup(defs[..start], drop, defs[start..n], deactivate);
    assert defs[..start] + defs[start..n] == defs[..n];
  }

  lemma AllTrueSlice(b: seq<bool>, start: nat, n: nat)
    requires start <= n <= |b|
    ensures AllTrue(b[start..][..n - start]) <==> forall m :: start <= m < n ==> b[m]
  {
    var t := b[start..][..n - start];
    assert forall m :: start <= m < n ==> b[m] == t[m - start];
    assert forall m :: 0 <= m < |t| ==> t[m] == b[start + m];
  }

  lemma SliceSplit<T>(s: seq<T>, i: nat, j: nat)
    requires i <= j <= |s|
    ensures s[i..][j - i..] == s[j..]
    ensures s[i..][..j - i] == s[i..j]
  {
  }

  lemma Reassociate<T>(all: seq<T>, u: seq<T>, mid: seq<T>, g: seq<T>, r: seq<T>)
    requires all == u + mid && mid == g + r
    ensures all == u + g + r
  {
  }
}
