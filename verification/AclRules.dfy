/**
  Rules, what it means for a rule to match, and `build_trie`: the trie of a list
  of rules finds, per category, a matching rule of highest priority.
*/
module AclRules {
  import opened Basics
  import opened AclTrie
  import opened AclMerge
  import opened AclField
  import opened AclBuilder
  import opened AclMiniTrie

  datatype FieldKind = MaskKind | RangeKind | BitmaskKind

  /** Definition of a field; `offset` is its place in the input buffer. */
  datatype FieldDef = FieldDef(kind: FieldKind, size: nat, fieldIndex: nat, inputIndex: nat, offset: nat)

  /** The two 8-byte unions of a rule's field, as 64-bit numbers. */
  datatype Field = Field(value: nat, maskRange: nat)

  /** `categories` are the bits of `category_mask`. */
  datatype Rule = Rule(categories: set<nat>, priority: int, userdata: nat, fields: seq<Field>)

  // ------------------------------------------------------------- meaning of fields

  /** A field value restricted to the size of the field. */
  function Low(v: nat, size: nat): nat {
    v % Pow2(8 * size)
  }

  function PrefixLen(f: Field): nat {
    f.maskRange % Pow2(32)
  }

  /** What the build demands of a field of a rule. */
  predicate ValidField(def: FieldDef, f: Field) {
    && 0 < def.size <= 4
    && match def.kind
       case MaskKind => PrefixLen(f) <= 8 * def.size
       case RangeKind =>
         && Low(f.value, def.size) <= Low(f.maskRange, def.size)
         && Boxable(Bytes(f.value, def.size), Bytes(f.maskRange, def.size))
       case BitmaskKind => true
  }

  /** Does the field match the packet bytes `s`? */
  predicate FieldMatches(def: FieldDef, f: Field, s: seq<byte>)
    requires ValidField(def, f) && |s| == def.size
  {
    var x := BigEndian(s);
    match def.kind
    case MaskKind => var m := Pow2(8 * def.size - PrefixLen(f)); x / m == Low(f.value, def.size) / m
    case RangeKind => Between(Low(f.value, def.size), x, Low(f.maskRange, def.size))
    case BitmaskKind =>
      BitAnd(x, Low(f.maskRange, def.size)) == BitAnd(Low(f.value, def.size), Low(f.maskRange, def.size))
  }

  /** The bytes of the mask of a mask or bitmask field. */
  function MaskBytes(def: FieldDef, f: Field): (b: seq<byte>)
    requires ValidField(def, f) && !def.kind.RangeKind?
    ensures |b| == def.size
  {
    if def.kind.MaskKind? then Bytes(MaskLenToBitmask(PrefixLen(f), def.size), def.size)
    else Bytes(f.maskRange, def.size)
  }

  /** The byte-wise test that the mini-trie of the field performs. */
  predicate FieldBytesMatch(def: FieldDef, f: Field, s: seq<byte>)
    requires ValidField(def, f) && |s| == def.size
  {
    var val := Bytes(f.value, def.size);
    if def.kind.RangeKind? then RangeBytesMatch(s, val, Bytes(f.maskRange, def.size))
    else MaskBytesMatch(s, val, MaskBytes(def, f))
  }

  lemma RangeOrdered(lo: seq<byte>, hi: seq<byte>, f: Field, size: nat)
    requires size > 0 && lo == Bytes(f.value, size) && hi == Bytes(f.maskRange, size)
    requires Low(f.value, size) <= Low(f.maskRange, size)
    ensures LittleEndian(lo) == Low(f.value, size) && LittleEndian(hi) == Low(f.maskRange, size)
    ensures lo[size - 1] <= hi[size - 1]
  {
    BytesValue(f.value, size);
    BytesValue(f.maskRange, size);
    var n := size - 1;
    UniqueParts(lo[n], LittleEndian(lo[..n]), hi[n], LittleEndian(hi[..n]), Pow2(8 * n));
  }

  /** The byte-wise test decides whether the field matches. */
  lemma FieldExact(def: FieldDef, f: Field, s: seq<byte>)
    requires ValidField(def, f) && |s| == def.size
    ensures FieldBytesMatch(def, f, s) <==> FieldMatches(def, f, s)
  {
    match def.kind
    case RangeKind => RangeFieldExact(def, f, s);
    case BitmaskKind => BitmaskFieldExact(def, f, s);
    case MaskKind => MaskFieldExact(def, f, s);
  }

  lemma RangeFieldExact(def: FieldDef, f: Field, s: seq<byte>)
    requires ValidField(def, f) && |s| == def.size && def.kind == RangeKind
    ensures FieldBytesMatch(def, f, s) <==> FieldMatches(def, f, s)
  {
    var val := Bytes(f.value, def.size);
    BytesValue(f.value, def.size);
    RangeOrdered(val, Bytes(f.maskRange, def.size), f, def.size);
    RangeExact(s, val, Bytes(f.maskRange, def.size));
  }

  lemma BitmaskFieldExact(def: FieldDef, f: Field, s: seq<byte>)
    requires ValidField(def, f) && |s| == def.size && def.kind == BitmaskKind
    ensures FieldBytesMatch(def, f, s) <==> FieldMatches(def, f, s)
  {
    hide BitAnd;
    BytesValue(f.value, def.size);
    BytesValue(f.maskRange, def.size);
    MaskBytesExact(s, Bytes(f.value, def.size), MaskBytes(def, f));
  }

  lemma MaskFieldExact(def: FieldDef, f: Field, s: seq<byte>)
    requires ValidField(def, f) && |s| == def.size && def.kind == MaskKind
    ensures FieldBytesMatch(def, f, s) <==> FieldMatches(def, f, s)
  {
    hide BitAnd;
    BytesValue(f.value, def.size);
    MaskLenExact(PrefixLen(f), def.size);
    MaskBytesExact(s, Bytes(f.value, def.size), MaskBytes(def, f));
    PrefixExact(BigEndian(s), Low(f.value, def.size), PrefixLen(f), def.size);
  }

  // -------------------------------------------------------------- meaning of rules

  /** The set of byte strings that a test accepts. */
  type Lang = seq<byte> -> bool

  function FieldLang(def: FieldDef, f: Field): Lang {
    (s: seq<byte>) => |s| == def.size && ValidField(def, f) && FieldMatches(def, f, s)
  }

  ghost predicate ValidRule(defs: seq<FieldDef>, r: Rule) {
    forall n :: 0 <= n < |defs| ==> defs[n].fieldIndex < |r.fields| && ValidField(defs[n], r.fields[defs[n].fieldIndex])
  }

  /** The tests of a rule, field by field. */
  ghost function RuleLangs(defs: seq<FieldDef>, r: Rule): (langs: seq<Lang>)
    requires ValidRule(defs, r)
    ensures |langs| == |defs|
  {
    seq(|defs|, n requires 0 <= n < |defs| => FieldLang(defs[n], r.fields[defs[n].fieldIndex]))
  }

  function Sizes(defs: seq<FieldDef>): (sizes: seq<nat>)
    ensures |sizes| == |defs|
  {
    seq(|defs|, n requires 0 <= n < |defs| => defs[n].size)
  }

  function Sum(sizes: seq<nat>): nat {
    if sizes == [] then 0 else Sum(sizes[..|sizes| - 1]) + sizes[|sizes| - 1]
  }

  lemma SumSnoc(sizes: seq<nat>, n: nat)
    ensures Sum(sizes + [n]) == Sum(sizes) + n
  {
    assert (sizes + [n])[..|sizes|] == sizes;
  }

  /** `s` is a concatenation of strings of the given sizes, each accepted by its test. */
  ghost predicate ChainAccepts(sizes: seq<nat>, langs: seq<Lang>, s: seq<byte>)
    requires |sizes| == |langs| && |s| == Sum(sizes)
    decreases |sizes|
  {
    sizes == [] ||
    (var n := |sizes| - 1;
     var cut := Sum(sizes[..n]);
     ChainAccepts(sizes[..n], langs[..n], s[..cut]) && langs[n](s[cut..]))
  }

  /** Does the rule match the input bytes `s`, the concatenation of its fields? */
  ghost predicate KeyMatches(defs: seq<FieldDef>, r: Rule, s: seq<byte>)
    requires ValidRule(defs, r) && |s| == Sum(Sizes(defs))
  {
    ChainAccepts(Sizes(defs), RuleLangs(defs, r), s)
  }

  // --------------------------------------------------------- the trie of one rule

  /** The trie `root`..`end` accepts exactly the inputs in `lang`. */
  ghost predicate LangTrie(nodes: seq<Node>, root: nat, end: nat, ls: seq<nat>, lang: Lang) {
    && Tower(nodes, root, end, ls)
    && forall s: seq<byte> :: |s| == |ls| - 1 ==> (Walk(nodes, root, s) == Some(end) <==> lang(s))
  }

  lemma {:induction false} IntervalOrdered(lo: seq<byte>, hi: seq<byte>)
    requires |lo| == |hi| && LittleEndian(lo) <= LittleEndian(hi) && BoxIsInterval(lo, hi)
    ensures forall n :: 0 <= n < |lo| ==> lo[n] <= hi[n]
  {
    if lo != [] {
      var k := |lo| - 1;
      UniqueParts(lo[k], LittleEndian(lo[..k]), hi[k], LittleEndian(hi[..k]), Pow2(8 * k));
      if lo[k] == hi[k] {
        IntervalOrdered(lo[..k], hi[..k]);
        assert forall n :: 0 <= n < k ==> lo[n] == lo[..k][n] && hi[n] == hi[..k][n];
      } else {
        assert forall n :: 0 <= n < k ==> lo[n] == lo[..k][n] == 0;
      }
    }
  }

  lemma RangeUsable(def: FieldDef, f: Field)
    requires ValidField(def, f) && def.kind.RangeKind?
    ensures var lo, hi := Bytes(f.value, def.size), Bytes(f.maskRange, def.size);
      && lo[def.size - 1] <= hi[def.size - 1]
      && (lo[def.size - 1] == hi[def.size - 1] ==> forall n :: 0 <= n < |lo| ==> lo[n] <= hi[n])
  {
    var lo, hi := Bytes(f.value, def.size), Bytes(f.maskRange, def.size);
    RangeOrdered(lo, hi, f, def.size);
    if lo[def.size - 1] == hi[def.size - 1] { IntervalOrdered(lo, hi); }
  }

  lemma RangeFieldTrie(nodes: seq<Node>, root: nat, end: nat, ls: seq<nat>, def: FieldDef, f: Field)
    requires ValidField(def, f) && def.kind.RangeKind? && |ls| == def.size + 1
    requires Bytes(f.value, def.size)[def.size - 1] <= Bytes(f.maskRange, def.size)[def.size - 1]
    requires RangeTrie(nodes, root, end, ls, Bytes(f.value, def.size), Bytes(f.maskRange, def.size))
    ensures LangTrie(nodes, root, end, ls, FieldLang(def, f))
  {
    forall s: seq<byte> | |s| == |ls| - 1
      ensures Walk(nodes, root, s) == Some(end) <==> FieldLang(def, f)(s)
    {
      FieldExact(def, f, s);
    }
  }

  lemma MaskFieldTrie(nodes: seq<Node>, root: nat, end: nat, ls: seq<nat>, def: FieldDef, f: Field)
    requires ValidField(def, f) && !def.kind.RangeKind? && |ls| == def.size + 1
    requires MaskTrie(nodes, root, end, ls, Bytes(f.value, def.size), MaskBytes(def, f))
    ensures LangTrie(nodes, root, end, ls, FieldLang(def, f))
  {
    forall s: seq<byte> | |s| == |ls| - 1
      ensures Walk(nodes, root, s) == Some(end) <==> FieldLang(def, f)(s)
    {
      FieldExact(def, f, s);
    }
  }

  lemma LevelsCons(level: nat, n: nat)
    ensures Levels(level, n + 1) == [level] + Levels(level + 1, n)
  {
  }

  /** Build the mini-trie for a field: the `switch` of `build_trie`. */
  method GenField(bld: Builder, def: FieldDef, f: Field, level: nat) returns (root: nat, end: nat)
    requires ValidField(def, f)
    modifies bld
    ensures old(bld.nodes) <= bld.nodes
    ensures |old(bld.nodes)| <= root && |old(bld.nodes)| <= end && Blank(bld.nodes, end)
    ensures LangTrie(bld.nodes, root, end, [level] + Levels(level + 1, def.size), FieldLang(def, f))
  {
    hide Levels, Tower, RangeTrie, MaskTrie, LangTrie, FieldLang;
    ghost var ls := [level] + Levels(level + 1, def.size);
    LevelsCons(level, def.size);
    if def.kind.RangeKind? {
      RangeUsable(def, f);
      root, end := GenRangeTrie(bld, Bytes(f.value, def.size), Bytes(f.maskRange, def.size), level);
      RangeFieldTrie(bld.nodes, root, end, ls, def, f);
    } else {
      root, end := GenMaskTrie(bld, Bytes(f.value, def.size), MaskBytes(def, f), level);
      MaskFieldTrie(bld.nodes, root, end, ls, def, f);
    }
  }

  /**
    `acl_merge_trie` at level 0 onto a node without pointers: nothing intersects, and
    all pointers of B are copied.
  */
  method MergeOnto(bld: Builder, a: nat, b: nat)
    requires Blank(bld.nodes, a) && b < |bld.nodes| && a != b && NodeOk(bld.nodes[b])
    modifies bld
    ensures |bld.nodes| == |old(bld.nodes)|
    ensures forall i :: 0 <= i < |bld.nodes| && i != a ==> bld.nodes[i] == old(bld.nodes)[i]
    ensures bld.nodes[a].level == old(bld.nodes)[a].level
    ensures NodeOk(bld.nodes[a]) && SameEdges(bld.nodes[a].ptrs, old(bld.nodes)[b].ptrs)
  {
    var intersect := bld.nodes[a].values * bld.nodes[b].values;
    if bld.nodes[b].values - intersect != {} {
      bld.CopyOutside(a, b, intersect);
    } else {
      assert bld.nodes[b].values == {};
    }
  }

  /** The end of a tower takes over the transitions of the mini-trie `m`. */
  lemma OntoTower(nodes: seq<Node>, new_: seq<Node>, end: nat, m: nat, next: nat, level: nat, ls: seq<nat>)
    requires |ls| > 0 && level < ls[0]
    requires Tower(nodes, m, next, [level + 1] + ls)
    requires end < |nodes| == |new_| && nodes[end].level == level
    requires forall i :: 0 <= i < |nodes| && i != end ==> new_[i] == nodes[i]
    requires new_[end].level == level && NodeOk(new_[end]) && SameEdges(new_[end].ptrs, nodes[m].ptrs)
    requires next != end
    ensures Tower(new_, end, next, [level] + ls)
    ensures forall s: seq<byte> :: |s| == |ls| ==> Walk(new_, end, s) == Walk(nodes, m, s)
  {
    assert ([level] + ls)[1..] == ls && ([level + 1] + ls)[1..] == ls;
    var ps, qs := new_[end].ptrs, nodes[m].ptrs;
    forall x: byte | Edge(qs, x).Some?
      ensures Tower(new_, Edge(qs, x).value, next, ls)
      ensures forall t: seq<byte> :: |t| == |ls| - 1 ==>
        Walk(new_, Edge(qs, x).value, t) == Walk(nodes, Edge(qs, x).value, t)
    {
      EdgeOfTower(nodes, m, next, [level + 1] + ls, x);
      TowerFrame(nodes, new_, Edge(qs, x).value, next, ls);
    }
    forall k | 0 <= k < |ps| ensures Tower(new_, ps[k].child.value, next, ls) {
      var x :| x in ps[k].values;
      SlotIs(ps, x, k);
      assert Edge(ps, x) == Edge(qs, x);
    }
    var y :| y in qs[0].values;
    SlotIs(qs, y, 0);
    assert Edge(ps, y) == Edge(qs, y);
    forall s: seq<byte> | |s| == |ls| ensures Walk(new_, end, s) == Walk(nodes, m, s) {
      assert Edge(ps, s[0]) == Edge(qs, s[0]);
    }
  }

  /** Levels of the nodes on a path through chained mini-tries. */
  function ChainLevels(sizes: seq<nat>): (ls: seq<nat>)
    ensures |ls| == Sum(sizes) + 1 && ls[0] == 0
  {
    if sizes == [] then [0]
    else
      var ls := ChainLevels(sizes[..|sizes| - 1]);
      ls + Levels(Last(ls) + 2, sizes[|sizes| - 1])
  }

  /** A chain of mini-tries with open end. */
  ghost predicate Chain(nodes: seq<Node>, root: nat, end: nat, sizes: seq<nat>, langs: seq<Lang>)
    requires |sizes| == |langs|
  {
    && Tower(nodes, root, end, ChainLevels(sizes))
    && forall s: seq<byte> :: |s| == Sum(sizes) ==>
         (Walk(nodes, root, s) == Some(end) <==> ChainAccepts(sizes, langs, s))
  }

  lemma ChainFrame(nodes: seq<Node>, new_: seq<Node>, root: nat, end: nat, sizes: seq<nat>, langs: seq<Lang>)
    requires |sizes| == |langs| && Chain(nodes, root, end, sizes, langs)
    requires nodes <= new_
    ensures Chain(new_, root, end, sizes, langs)
  {
    TowerEnd(nodes, root, end, ChainLevels(sizes));
    TowerFrame(nodes, new_, root, end, ChainLevels(sizes));
  }

  /** The open end of a tower took over the mini-trie `m` of the next field. */
  ghost predicate Chained(nodes: seq<Node>, new_: seq<Node>, root: nat, end: nat, m: nat, next: nat, ls: seq<nat>,
      size: nat) {
    && size > 0
    && Tower(nodes, root, end, ls)
    && Tower(nodes, m, next, [Last(ls) + 1] + Levels(Last(ls) + 2, size))
    && |nodes| == |new_| && end < |nodes| && next != end
    && (forall i :: 0 <= i < |nodes| && i != end ==> new_[i] == nodes[i])
    && new_[end].level == nodes[end].level && NodeOk(new_[end]) && SameEdges(new_[end].ptrs, nodes[m].ptrs)
  }

  lemma ChainedTower(nodes: seq<Node>, new_: seq<Node>, root: nat, end: nat, m: nat, next: nat, ls: seq<nat>, size: nat)
    requires Chained(nodes, new_, root, end, m, next, ls, size)
    ensures Extended(nodes, new_, root, end, next, ls, Levels(Last(ls) + 2, size))
    ensures forall s: seq<byte> :: |s| == size ==> Walk(new_, end, s) == Walk(nodes, m, s)
  {
    TowerEnd(nodes, root, end, ls);
    OntoTower(nodes, new_, end, m, next, Last(ls), Levels(Last(ls) + 2, size));
  }

  lemma ChainedWalk(nodes: seq<Node>, new_: seq<Node>, root: nat, end: nat, m: nat, next: nat, ls: seq<nat>, size: nat,
      t: seq<byte>, u: seq<byte>)
    requires Chained(nodes, new_, root, end, m, next, ls, size) && |t| == |ls| - 1 && |u| == size
    ensures Walk(new_, root, t + u) == Some(next) <==>
      Walk(nodes, root, t) == Some(end) && Walk(nodes, m, u) == Some(next)
  {
    ChainedTower(nodes, new_, root, end, m, next, ls, size);
    ExtendedWalk(nodes, new_, root, end, next, ls, Levels(Last(ls) + 2, size), t, u);
  }

  /** Chaining the mini-trie of the next field. */
  lemma ChainGrows(nodes: seq<Node>, new_: seq<Node>, root: nat, end: nat, m: nat, next: nat, sizes: seq<nat>,
      langs: seq<Lang>)
    requires 0 < |sizes| == |langs|
    requires var n := |sizes| - 1;
      var level := Last(ChainLevels(sizes[..n]));
      && Chain(nodes, root, end, sizes[..n], langs[..n])
      && LangTrie(nodes, m, next, [level + 1] + Levels(level + 2, sizes[n]), langs[n])
      && Chained(nodes, new_, root, end, m, next, ChainLevels(sizes[..n]), sizes[n])
    ensures Chain(new_, root, next, sizes, langs)
  {
    hide Walk, Tower, Levels, Chained;
    var n := |sizes| - 1;
    var ls, cut := ChainLevels(sizes[..n]), Sum(sizes[..n]);
    assert Tower(new_, root, next, ChainLevels(sizes)) by {
      ChainedTower(nodes, new_, root, end, m, next, ls, sizes[n]);
      ExtendedTower(nodes, new_, root, end, next, ls, Levels(Last(ls) + 2, sizes[n]));
    }
    forall s: seq<byte> | |s| == Sum(sizes)
      ensures Walk(new_, root, s) == Some(next) <==> ChainAccepts(sizes, langs, s)
    {
      AcceptsMeans(sizes, langs, s);
      ChainGrowsWalk(nodes, new_, root, end, m, next, sizes[..n], langs[..n], sizes[n], langs[n], s[..cut], s[cut..]);
      assert s[..cut] + s[cut..] == s;
    }
  }

  lemma ChainGrowsWalk(nodes: seq<Node>, new_: seq<Node>, root: nat, end: nat, m: nat, next: nat, sizes: seq<nat>,
      langs: seq<Lang>, size: nat, lang: Lang, t: seq<byte>, u: seq<byte>)
    requires |sizes| == |langs| && |t| == Sum(sizes) && |u| == size
    requires Chain(nodes, root, end, sizes, langs)
    requires var level := Last(ChainLevels(sizes));
      LangTrie(nodes, m, next, [level + 1] + Levels(level + 2, size), lang)
    requires Chained(nodes, new_, root, end, m, next, ChainLevels(sizes), size)
    ensures Walk(new_, root, t + u) == Some(next) <==> ChainAccepts(sizes, langs, t) && lang(u)
  {
    hide Walk, Tower, Levels, Chained, ChainLevels, ChainAccepts, Chain;
    ChainedWalk(nodes, new_, root, end, m, next, ChainLevels(sizes), size, t, u);
    ChainMeans(nodes, root, end, sizes, langs, t);
  }

  lemma ChainMeans(nodes: seq<Node>, root: nat, end: nat, sizes: seq<nat>, langs: seq<Lang>, s: seq<byte>)
    requires |sizes| == |langs| && Chain(nodes, root, end, sizes, langs) && |s| == Sum(sizes)
    ensures Walk(nodes, root, s) == Some(end) <==> ChainAccepts(sizes, langs, s)
  {
  }

  lemma AcceptsMeans(sizes: seq<nat>, langs: seq<Lang>, s: seq<byte>)
    requires 0 < |sizes| == |langs| && |s| == Sum(sizes)
    ensures var n := |sizes| - 1; var cut := Sum(sizes[..n]);
      cut <= |s| && (ChainAccepts(sizes, langs, s) <==>
        ChainAccepts(sizes[..n], langs[..n], s[..cut]) && langs[n](s[cut..]))
  {
  }

  lemma TakeSnoc<T>(s: seq<T>, n: nat)
    requires n < |s|
    ensures s[..n + 1] == s[..n] + [s[n]]
  {
  }

  /** The mini-trie of field `n` of a rule. */
  method GenRuleField(bld: Builder, defs: seq<FieldDef>, r: Rule, n: nat, level: nat) returns (root: nat, end: nat)
    requires ValidRule(defs, r) && n < |defs|
    modifies bld
    ensures old(bld.nodes) <= bld.nodes
    ensures |old(bld.nodes)| <= root && |old(bld.nodes)| <= end && Blank(bld.nodes, end)
    ensures Sizes(defs)[n] > 0
    ensures LangTrie(bld.nodes, root, end, [level] + Levels(level + 1, Sizes(defs)[n]), RuleLangs(defs, r)[n])
  {
    root, end := GenField(bld, defs[n], r.fields[defs[n].fieldIndex], level);
  }

  /** One field of the field loop: build its mini-trie and chain it to the end. */
  method ChainField(bld: Builder, end: nat, defs: seq<FieldDef>, r: Rule, n: nat, ghost root: nat) returns (next: nat)
    requires ValidRule(defs, r) && n < |defs|
    requires Chain(bld.nodes, root, end, Sizes(defs)[..n], RuleLangs(defs, r)[..n]) && Blank(bld.nodes, end)
    modifies bld
    ensures |old(bld.nodes)| <= |bld.nodes| && |old(bld.nodes)| <= next
    ensures forall i :: 0 <= i < |old(bld.nodes)| && i != end ==> bld.nodes[i] == old(bld.nodes)[i]
    ensures Chain(bld.nodes, root, next, Sizes(defs)[..n + 1], RuleLangs(defs, r)[..n + 1]) && Blank(bld.nodes, next)
  {
    ghost var before, sizes, langs := bld.nodes, Sizes(defs), RuleLangs(defs, r);
    TakeSnoc(sizes, n);
    TakeSnoc(langs, n);
    TowerEnd(bld.nodes, root, end, ChainLevels(sizes[..n]));
    var level := bld.nodes[end].level + 1;
    var m, e := GenRuleField(bld, defs, r, n, level);
    next := e;
    ChainFrame(before, bld.nodes, root, end, sizes[..n], langs[..n]);
    Attach(bld, end, m, level, next, root, sizes[..n], langs[..n], sizes[n], langs[n]);
  }

  /** Merge the mini-trie `m` onto the end of the rule. */
  method Attach(bld: Builder, end: nat, m: nat, level: nat, ghost next: nat, ghost root: nat, ghost sizes: seq<nat>,
      ghost langs: seq<Lang>,
                ghost size: nat, ghost lang: Lang)
    requires |sizes| == |langs| && size > 0
    requires Chain(bld.nodes, root, end, sizes, langs) && Blank(bld.nodes, end) && Blank(bld.nodes, next)
    requires m != end && next != end
    requires level == Last(ChainLevels(sizes)) + 1 &&
      LangTrie(bld.nodes, m, next, [level] + Levels(level + 1, size), lang)
    modifies bld
    ensures |bld.nodes| == |old(bld.nodes)|
    ensures forall i :: 0 <= i < |bld.nodes| && i != end ==> bld.nodes[i] == old(bld.nodes)[i]
    ensures Chain(bld.nodes, root, next, sizes + [size], langs + [lang])
  {
    ghost var built, ls := bld.nodes, ChainLevels(sizes);
    TowerEnd(built, root, end, ls);
    MergeOnto(bld, end, m);
    assert (sizes + [size])[..|sizes|] == sizes && (langs + [lang])[..|sizes|] == langs;
    ChainGrows(built, bld.nodes, root, end, m, next, sizes + [size], langs + [lang]);
  }

  // ------------------------------------------------------------ results of a rule

  /** Priority of the rule in category `i`; 0 where it has none. */
  function CategoryPriority(r: Rule, i: nat, categories: nat): int {
    if i < categories && i in r.categories then r.priority else 0
  }

  function CategoryResult(r: Rule, i: nat, categories: nat): nat {
    if i < categories && i in r.categories then r.userdata else 0
  }

  /** The results of one rule. */
  function RuleMatch(r: Rule, categories: nat): (m: Match)
    ensures m.Valid(categories)
    ensures forall i :: 0 <= i < MAX_CATEGORIES ==>
      m.priority[i] == CategoryPriority(r, i, categories) && m.results[i] == CategoryResult(r, i, categories)
  {
    Match(seq(MAX_CATEGORIES, i requires 0 <= i < MAX_CATEGORIES => CategoryResult(r, i, categories)),
          seq(MAX_CATEGORIES, i requires 0 <= i < MAX_CATEGORIES => CategoryPriority(r, i, categories)))
  }

  /** Set up the result and priority of each category. */
  method RuleResults(r: Rule, categories: nat) returns (m: Match)
    requires categories <= MAX_CATEGORIES
    ensures m == RuleMatch(r, categories)
  {
    hide RuleMatch;
    m := Match(seq(MAX_CATEGORIES, _ => 0), seq(MAX_CATEGORIES, _ => 0));
    var n := categories;
    while n != 0
      invariant 0 <= n <= categories
      invariant |m.results| == |m.priority| == MAX_CATEGORIES
      invariant forall i :: 0 <= i < n || categories <= i < MAX_CATEGORIES ==> m.priority[i] == 0 && m.results[i] == 0
      invariant forall i :: n <= i < categories ==>
        m.priority[i] == CategoryPriority(r, i, categories) && m.results[i] == CategoryResult(r, i, categories)
    {
      n := n - 1;
      if n in r.categories {
        m := Match(m.results[n := r.userdata], m.priority[n := r.priority]);
      }
    }
    assert m.results == RuleMatch(r, categories).results && m.priority == RuleMatch(r, categories).priority;
  }

  /** Closing the open end with match results gives a well-formed trie. */
  lemma {:induction false} TowerToTrie(nodes: seq<Node>, new_: seq<Node>, id: nat, end: nat, ls: seq<nat>, m: Match,
      categories: nat)
    requires Tower(nodes, id, end, ls) && Blank(nodes, end) && m.Valid(categories)
    requires |nodes| == |new_| && forall i :: 0 <= i < |nodes| && i != end ==> new_[i] == nodes[i]
    requires new_[end] == nodes[end].(mrt := Some(m))
    ensures Wf(new_, id, ls, categories)
    ensures forall s: seq<byte> :: |s| == |ls| - 1 ==>
      Lookup(new_, id, s) == if Walk(nodes, id, s) == Some(end) then Some(m) else None
    decreases |ls|
  {
    TowerEnd(nodes, id, end, ls);
    if |ls| > 1 {
      var ps := nodes[id].ptrs;
      forall k | 0 <= k < |ps|
        ensures Wf(new_, ps[k].child.value, ls[1..], categories)
        ensures forall t: seq<byte> :: |t| == |ls| - 2 ==>
          Lookup(new_, ps[k].child.value, t) == if Walk(nodes, ps[k].child.value, t) == Some(end) then Some(m) else None
      {
        TowerToTrie(nodes, new_, ps[k].child.value, end, ls[1..], m, categories);
      }
      forall s: seq<byte> | |s| == |ls| - 1
        ensures Lookup(new_, id, s) == if Walk(nodes, id, s) == Some(end) then Some(m) else None
      {
        var k := SlotOf(ps, s[0]);
        if k < |ps| {
          assert Lookup(new_, id, s) == Lookup(new_, ps[k].child.value, s[1..]);
          assert Walk(nodes, id, s) == Walk(nodes, ps[k].child.value, s[1..]);
        }
      }
    }
  }

  // ---------------------------------------------------- the best of matching rules

  /** `p` and `res` come from a rule of `hits` of highest priority in category `i`. */
  ghost predicate BestInCategory(p: int, res: nat, i: nat, hits: set<Rule>, categories: nat) {
    && (forall q :: q in hits ==> CategoryPriority(q, i, categories) <= p)
    && (exists q :: q in hits && CategoryPriority(q, i, categories) == p && CategoryResult(q, i, categories) == res)
  }

  /** `r` is what a search among the matching rules `hits` may return. */
  ghost predicate Best(r: Option<Match>, hits: set<Rule>, categories: nat) {
    match r
    case None => hits == {}
    case Some(m) =>
      && m.Valid(categories)
      && forall i :: 0 <= i < MAX_CATEGORIES ==> BestInCategory(m.priority[i], m.results[i], i, hits, categories)
  }

  lemma BestOfOne(r: Rule, categories: nat)
    ensures Best(Some(RuleMatch(r, categories)), {r}, categories)
  {
    assert r in {r};
  }

  lemma BestJoins(a: Option<Match>, b: Option<Match>, ha: set<Rule>, hb: set<Rule>, categories: nat)
    requires categories <= MAX_CATEGORIES && Best(a, ha, categories) && Best(b, hb, categories)
    ensures Best(Joined(a, b), ha + hb, categories)
  {
    hide Join, BestInCategory;
    var c := Joined(a, b);
    if a.None? || b.None? {
      assert ha + hb == (if a.None? then hb else ha);
    } else {
      AboveBelow(a.value, b.value, categories);
      forall i | 0 <= i < MAX_CATEGORIES
        ensures BestInCategory(c.value.priority[i], c.value.results[i], i, ha + hb, categories)
      {
        JoinIsHigher(a.value, b.value, i);
        BestPair(c.value.priority[i], c.value.results[i], a.value.priority[i], a.value.results[i],
                 b.value.priority[i], b.value.results[i], i, ha, hb, categories);
      }
    }
  }

  lemma BestPair(p: int, res: nat, pa: int, ra: nat, pb: int, rb: nat, i: nat, ha: set<Rule>, hb: set<Rule>,
      categories: nat)
    requires BestInCategory(pa, ra, i, ha, categories) && BestInCategory(pb, rb, i, hb, categories)
    requires pa <= p && pb <= p && ((p == pa && res == ra) || (p == pb && res == rb))
    ensures BestInCategory(p, res, i, ha + hb, categories)
  {
    if p == pa && res == ra {
      var q :| q in ha && CategoryPriority(q, i, categories) == p && CategoryResult(q, i, categories) == res;
      assert q in ha + hb;
    } else {
      var q :| q in hb && CategoryPriority(q, i, categories) == p && CategoryResult(q, i, categories) == res;
      assert q in ha + hb;
    }
  }

  // ---------------------------------------------------------- the trie of all rules

  ghost predicate ValidRules(defs: seq<FieldDef>, rules: seq<Rule>) {
    forall q :: q in rules ==> ValidRule(defs, q)
  }

  /** The rules that match input `s`. */
  ghost function Hits(defs: seq<FieldDef>, rules: seq<Rule>, s: seq<byte>): set<Rule>
    requires ValidRules(defs, rules) && |s| == Sum(Sizes(defs))
  {
    set q | q in rules && KeyMatches(defs, q, s)
  }

  /** The result of `r` on input `s`, if it matches. */
  ghost function RuleResult(defs: seq<FieldDef>, r: Rule, s: seq<byte>, categories: nat): Option<Match>
    requires ValidRule(defs, r) && |s| == Sum(Sizes(defs))
  {
    if KeyMatches(defs, r, s) then Some(RuleMatch(r, categories)) else None
  }

  /**
    The specification of a trie: a linear scan of the rules, first to last, that joins the results of those that match.
  */
  ghost function Scan(defs: seq<FieldDef>, rules: seq<Rule>, s: seq<byte>, categories: nat): Option<Match>
    requires ValidRules(defs, rules) && |s| == Sum(Sizes(defs))
    decreases |rules|
  {
    if rules == [] then None
    else
      var n := |rules| - 1;
      Joined(Scan(defs, rules[..n], s, categories), RuleResult(defs, rules[n], s, categories))
  }

  /** A linear scan finds, per category, a matching rule of highest priority. */
  lemma {:induction false} ScanFindsBest(defs: seq<FieldDef>, rules: seq<Rule>, s: seq<byte>, categories: nat)
    requires ValidRules(defs, rules) && |s| == Sum(Sizes(defs)) && categories <= MAX_CATEGORIES
    ensures Best(Scan(defs, rules, s, categories), Hits(defs, rules, s), categories)
    decreases |rules|
  {
    hide Joined, KeyMatches, Best;
    if rules == [] {
      BestOfNone(defs, s, categories);
    } else {
      var n := |rules| - 1;
      ScanFindsBest(defs, rules[..n], s, categories);
      RuleResultBest(defs, rules[n], s, categories);
      BestJoins(Scan(defs, rules[..n], s, categories), RuleResult(defs, rules[n], s, categories),
                Hits(defs, rules[..n], s), Hits(defs, [rules[n]], s), categories);
      assert rules == rules[..n] + [rules[n]];
      assert Hits(defs, rules, s) == Hits(defs, rules[..n], s) + Hits(defs, [rules[n]], s);
    }
  }

  lemma BestOfNone(defs: seq<FieldDef>, s: seq<byte>, categories: nat)
    requires |s| == Sum(Sizes(defs))
    ensures Best(None, Hits(defs, [], s), categories)
  {
  }

  lemma RuleResultBest(defs: seq<FieldDef>, r: Rule, s: seq<byte>, categories: nat)
    requires ValidRule(defs, r) && |s| == Sum(Sizes(defs))
    ensures Best(RuleResult(defs, r, s, categories), Hits(defs, [r], s), categories)
  {
    hide KeyMatches, Best;
    if KeyMatches(defs, r, s) {
      assert Hits(defs, [r], s) == {r};
      BestOfOne(r, categories);
    } else {
      assert Hits(defs, [r], s) == Hits(defs, [], s);
      BestOfNone(defs, s, categories);
    }
  }

  /** The trie at `id` finds what a linear scan of the rules finds, on every input. */
  ghost predicate RefinesScan(nodes: seq<Node>, id: nat, defs: seq<FieldDef>, rules: seq<Rule>, categories: nat)
    requires ValidRules(defs, rules)
  {
    && Wf(nodes, id, ChainLevels(Sizes(defs)), categories)
    && forall s: seq<byte> :: |s| == Sum(Sizes(defs)) ==> Lookup(nodes, id, s) == Scan(defs, rules, s, categories)
  }

  lemma RuleTrieRefines(nodes: seq<Node>, new_: seq<Node>, root: nat, end: nat, defs: seq<FieldDef>, r: Rule, m: Match,
      categories: nat)
    requires ValidRule(defs, r)
    requires Chain(nodes, root, end, Sizes(defs), RuleLangs(defs, r)) && Blank(nodes, end) &&
      m == RuleMatch(r, categories)
    requires |nodes| == |new_| && forall i :: 0 <= i < |nodes| && i != end ==> new_[i] == nodes[i]
    requires end < |nodes| && new_[end] == nodes[end].(mrt := Some(m))
    ensures RefinesScan(new_, root, defs, [r], categories)
  {
    TowerToTrie(nodes, new_, root, end, ChainLevels(Sizes(defs)), m, categories);
    forall s: seq<byte> | |s| == Sum(Sizes(defs))
      ensures Lookup(new_, root, s) == Scan(defs, [r], s, categories)
    {
      assert Walk(nodes, root, s) == Some(end) <==> KeyMatches(defs, r, s);
      ScanOne(defs, r, s, categories);
    }
  }

  lemma ScanOne(defs: seq<FieldDef>, r: Rule, s: seq<byte>, categories: nat)
    requires ValidRule(defs, r) && |s| == Sum(Sizes(defs))
    ensures Scan(defs, [r], s, categories) == RuleResult(defs, r, s, categories)
  {
    assert [r][..0] == [];
    assert Scan(defs, [r][..0], s, categories) == None;
  }

  /** The trie of one rule: the field loop and the setup of results of `build_trie`. */
  method BuildRule(bld: Builder, defs: seq<FieldDef>, r: Rule) returns (root: nat)
    requires ValidRule(defs, r) && bld.categories <= MAX_CATEGORIES
    modifies bld
    ensures old(bld.nodes) <= bld.nodes && |old(bld.nodes)| <= root
    ensures RefinesScan(bld.nodes, root, defs, [r], bld.categories)
  {
    root := bld.AllocNode(0);
    var end := BuildFields(bld, root, defs, r);
    ghost var before := bld.nodes;
    var m := RuleResults(r, bld.categories);
    bld.nodes := bld.nodes[end := bld.nodes[end].(mrt := Some(m))];
    RuleTrieRefines(before, bld.nodes, root, end, defs, r, m, bld.categories);
  }

  lemma ChainStart(nodes: seq<Node>, root: nat)
    requires root < |nodes| && nodes[root].level == 0
    ensures Chain(nodes, root, root, [], [])
  {
  }

  /** The field loop of `build_trie`. */
  method BuildFields(bld: Builder, root: nat, defs: seq<FieldDef>, r: Rule) returns (end: nat)
    requires ValidRule(defs, r) && Blank(bld.nodes, root) && bld.nodes[root].level == 0
    modifies bld
    ensures |old(bld.nodes)| <= |bld.nodes| && (end == root || |old(bld.nodes)| <= end)
    ensures forall i :: 0 <= i < |old(bld.nodes)| && i != root ==> bld.nodes[i] == old(bld.nodes)[i]
    ensures Chain(bld.nodes, root, end, Sizes(defs), RuleLangs(defs, r)) && Blank(bld.nodes, end)
  {
    end := root;
    ghost var sizes, langs := Sizes(defs), RuleLangs(defs, r);
    ChainStart(bld.nodes, root);
    for n := 0 to |defs|
      invariant |old(bld.nodes)| <= |bld.nodes| && (end == root || |old(bld.nodes)| <= end)
      invariant forall i :: 0 <= i < |old(bld.nodes)| && i != root ==> bld.nodes[i] == old(bld.nodes)[i]
      invariant Chain(bld.nodes, root, end, sizes[..n], langs[..n]) && Blank(bld.nodes, end)
    {
      end := ChainField(bld, end, defs, r, n, root);
    }
    assert sizes[..|defs|] == sizes && langs[..|defs|] == langs;
  }

  /** Merging the trie of another rule into the trie. */
  lemma MergedRefines(nodes: seq<Node>, new_: seq<Node>, trie: nat, root: nat, defs: seq<FieldDef>, rules: seq<Rule>,
      r: Rule, categories: nat)
    requires ValidRules(defs, rules) && ValidRule(defs, r)
    requires RefinesScan(nodes, trie, defs, rules, categories) && RefinesScan(nodes, root, defs, [r], categories)
    requires Wf(new_, trie, ChainLevels(Sizes(defs)), categories)
    requires JoinedTrie(new_, trie, nodes, trie, root, Sum(Sizes(defs)))
    ensures ValidRules(defs, rules + [r]) && RefinesScan(new_, trie, defs, rules + [r], categories)
  {
    forall s: seq<byte> | |s| == Sum(Sizes(defs))
      ensures Lookup(new_, trie, s) == Scan(defs, rules + [r], s, categories)
    {
      ScanOne(defs, r, s, categories);
      assert (rules + [r])[..|rules|] == rules;
    }
  }

  /** A blank root that took over the transitions of a rule's root. */
  lemma OntoRefines(nodes: seq<Node>, new_: seq<Node>, trie: nat, root: nat, defs: seq<FieldDef>, r: Rule,
      categories: nat)
    requires ValidRule(defs, r) && Sum(Sizes(defs)) > 0 && RefinesScan(nodes, root, defs, [r], categories)
    requires trie < |nodes| == |new_| && nodes[trie].level == 0 && trie != root
    requires forall i :: 0 <= i < |nodes| && i != trie ==> new_[i] == nodes[i]
    requires new_[trie].level == 0 && NodeOk(new_[trie]) && SameEdges(new_[trie].ptrs, nodes[root].ptrs)
    ensures RefinesScan(new_, trie, defs, [r], categories)
  {
    var ls := ChainLevels(Sizes(defs));
    var ps, qs := new_[trie].ptrs, nodes[root].ptrs;
    assert SameEdges(new_[trie].ptrs, new_[root].ptrs);
    forall k | 0 <= k < |ps| ensures Wf(new_, ps[k].child.value, ls[1..], categories) {
      var x :| x in ps[k].values;
      SlotIs(ps, x, k);
      assert Edge(ps, x) == Edge(qs, x);
      EdgeOfWf(nodes, root, ls, categories, x);
      Frame(nodes, new_, ps[k].child.value, ls[1..], categories);
    }
    var y :| y in qs[0].values;
    SlotIs(qs, y, 0);
    assert Edge(ps, y) == Edge(qs, y);
    assert Wf(new_, trie, ls, categories);
    forall s: seq<byte> | |s| == Sum(Sizes(defs))
      ensures Lookup(new_, trie, s) == Lookup(nodes, root, s)
    {
      StepDown(nodes, new_, root, ls, categories, s);
      assert Edge(ps, s[0]) == Edge(qs, s[0]);
    }
  }

  /** `acl_merge_trie(context, trie, root, 0, NULL)` of `build_trie`. */
  method MergeRule(bld: Builder, trie: nat, root: nat, ghost defs: seq<FieldDef>, ghost rules: seq<Rule>, ghost r: Rule)
    requires bld.categories <= MAX_CATEGORIES && Sum(Sizes(defs)) > 0
    requires ValidRules(defs, rules) && ValidRule(defs, r) && trie != root
    requires RefinesScan(bld.nodes, root, defs, [r], bld.categories)
    requires rules == [] ==> Blank(bld.nodes, trie) && bld.nodes[trie].level == 0
    requires rules != [] ==> RefinesScan(bld.nodes, trie, defs, rules, bld.categories)
    modifies bld
    ensures |old(bld.nodes)| <= |bld.nodes|
    ensures forall i :: 0 <= i < |old(bld.nodes)| && i != trie ==> bld.nodes[i] == old(bld.nodes)[i]
    ensures rules == [] ==> |bld.nodes| == |old(bld.nodes)|
    ensures ValidRules(defs, rules + [r]) && RefinesScan(bld.nodes, trie, defs, rules + [r], bld.categories)
  {
    ghost var before := bld.nodes;
    if bld.nodes[trie].ptrs == [] {
      MergeOnto(bld, trie, root);
      OntoRefines(before, bld.nodes, trie, root, defs, r, bld.categories);
      assert rules + [r] == [r];
    } else {
      var c := bld.Merge(trie, root, 0, ChainLevels(Sizes(defs)));
      MergedRefines(before, bld.nodes, trie, root, defs, rules, r, bld.categories);
    }
  }

  /** The merge of rule `k` left more than `limit` nodes behind: those it added, less those it released. */
  ghost predicate Exceeds(grown: seq<nat>, freed: nat -> nat, limit: nat, k: nat) {
    k < |grown| && grown[k] - freed(k) > limit
  }

  ghost predicate NoneExceeds(grown: seq<nat>, freed: nat -> nat, limit: nat) {
    forall k: nat :: !Exceeds(grown, freed, limit, k)
  }

  /** The last merge did, and none before it. */
  ghost predicate LastExceeds(grown: seq<nat>, freed: nat -> nat, limit: nat) {
    grown != [] && forall k: nat :: Exceeds(grown, freed, limit, k) <==> k == |grown| - 1
  }

  lemma NothingGrown(freed: nat -> nat, limit: Option<nat>)
    ensures Sum([]) == 0 && (limit.Some? ==> NoneExceeds([], freed, limit.value))
  {
  }

  lemma ExceedsSnoc(grown: seq<nat>, freed: nat -> nat, limit: nat, more: nat)
    requires NoneExceeds(grown, freed, limit)
    ensures if more - freed(|grown|) > limit then LastExceeds(grown + [more], freed, limit)
            else NoneExceeds(grown + [more], freed, limit)
  {
    forall k: nat ensures Exceeds(grown + [more], freed, limit, k) <==> k == |grown| && more - freed(|grown|) > limit {
      assert !Exceeds(grown, freed, limit, k);
    }
  }

  /**
    Build a trie for `rules`. `limit` bounds the nodes that one rule may add (`None`
    stands for INT32_MAX); `freed(k)` is how many nodes the merge of rule `k` released.
    `last` is the last rule to keep when the trie got too big; `grown` are the nodes that each merge added.
  */
  method BuildTrie(bld: Builder, defs: seq<FieldDef>, rules: seq<Rule>, limit: Option<nat>, freed: nat -> nat)
    returns (trie: nat, last: Option<nat>, ghost grown: seq<nat>)
    requires bld.categories <= MAX_CATEGORIES && Sum(Sizes(defs)) > 0
    requires ValidRules(defs, rules) && rules != []
    modifies bld
    ensures old(bld.nodes) <= bld.nodes && |old(bld.nodes)| <= trie
    ensures limit.None? ==> last.None?
    ensures last.None? ==> RefinesScan(bld.nodes, trie, defs, rules, bld.categories)
    ensures last.None? ==> |grown| == |rules| && (limit.Some? ==> NoneExceeds(grown, freed, limit.value))
    ensures last.Some? ==> limit.Some? && LastExceeds(grown, freed, limit.value)
    ensures last.Some? ==> last.value + 2 == |grown| <= |rules|
    ensures |old(bld.nodes)| + Sum(grown) <= |bld.nodes|
  {
    hide RefinesScan, NoneExceeds, LastExceeds, Sum;
    NothingGrown(freed, limit);
    trie := bld.AllocNode(0);
    grown := [];
    var prev, k := 0, 0;
    while k < |rules|
      invariant prev == (if k == 0 then 0 else k - 1) && k <= |rules| && |grown| == k
      invariant limit.Some? ==> NoneExceeds(grown, freed, limit.value)
      invariant |old(bld.nodes)| + Sum(grown) <= |bld.nodes| && |old(bld.nodes)| <= trie < |bld.nodes|
      invariant forall i :: 0 <= i < |old(bld.nodes)| ==> bld.nodes[i] == old(bld.nodes)[i]
      invariant ValidRules(defs, rules[..k])
      invariant k == 0 ==> Blank(bld.nodes, trie) && bld.nodes[trie].level == 0
      invariant k > 0 ==> RefinesScan(bld.nodes, trie, defs, rules[..k], bld.categories)
    {
      ghost var before := bld.nodes;
      var root := BuildRule(bld, defs, rules[k]);
      if k > 0 { RefinesFrame(before, bld.nodes, trie, defs, rules[..k], bld.categories); }
      var nodeCount := |bld.nodes|;
      MergeRule(bld, trie, root, defs, rules[..k], rules[k]);
      TakeSnoc(rules, k);
      ghost var more := |bld.nodes| - nodeCount;
      SumSnoc(grown, more);
      if limit.Some? {
        ExceedsSnoc(grown, freed, limit.value, more);
      }
      grown := grown + [more];
      nodeCount := |bld.nodes| - nodeCount - freed(k);
      if limit.Some? && nodeCount > limit.value {
        last := Some(prev);
        return;
      }
      prev := k;
      k := k + 1;
    }
    assert rules[..k] == rules;
    last := None;
  }

  lemma RefinesFrame(nodes: seq<Node>, new_: seq<Node>, trie: nat, defs: seq<FieldDef>, rules: seq<Rule>,
      categories: nat)
    requires ValidRules(defs, rules) && RefinesScan(nodes, trie, defs, rules, categories)
    requires nodes <= new_
    ensures RefinesScan(new_, trie, defs, rules, categories)
  {
    Frame(nodes, new_, trie, ChainLevels(Sizes(defs)), categories);
  }
}
