/**
  `rte_acl_build` and `rte_acl_classify`, and what a caller may rely on.
*/
module AclMain {
  import opened Basics
  import opened AclTrie
  import opened AclBuilder
  import opened AclRules
  import opened AclConfig
  import opened AclIndex
  import opened AclTries
  import opened AclWord
  import opened AclGen
  import opened AclTable
  import opened AclRun
  import opened AclOrder
  import opened AclSpec
  import opened AclEngine
  import opened AclClassify

  // ---------------------------------------------------------------- what one trie answers

  /** Fields that are wild in all rules do not change which rules match. */
  lemma ReducedMatches(orig: seq<FieldDef>, defs: seq<FieldDef>, rules: seq<Rule>, q: Rule, pkt: seq<byte>)
    requires Reduced(orig, defs, rules) && ValidRule(orig, q) && ValidRule(defs, q) && q in rules
    requires Fits(orig, pkt) && Fits(defs, pkt)
    ensures PacketMatches(orig, q, pkt) <==> PacketMatches(defs, q, pkt)
  {
    if PacketMatches(orig, q, pkt) {
      forall n | 0 <= n < |defs| ensures RuleLangs(defs, q)[n](Slice(defs[n], pkt)) {
        assert defs[n] in orig;
        var k :| 0 <= k < |orig| && orig[k] == defs[n];
        assert RuleLangs(orig, q)[k](Slice(orig[k], pkt));
      }
    }
    if PacketMatches(defs, q, pkt) {
      forall n | 0 <= n < |orig| ensures RuleLangs(orig, q)[n](Slice(orig[n], pkt)) {
        var def := orig[n];
        assert def in orig;
        if def in defs {
          var k :| 0 <= k < |defs| && defs[k] == def;
          assert RuleLangs(defs, q)[k](Slice(defs[k], pkt));
        } else {
          assert WildEverywhere(def, rules);
          WildMatchesAll(def, q.fields[def.fieldIndex], Slice(def, pkt));
        }
      }
    }
  }

  lemma HitsAreMatched(orig: seq<FieldDef>, defs: seq<FieldDef>, rules: seq<Rule>, pkt: seq<byte>)
    requires Reduced(orig, defs, rules) && ValidRules(orig, rules) && ValidRules(defs, rules)
    requires Fits(orig, pkt) && Fits(defs, pkt)
    ensures Hits(defs, rules, FieldKey(defs, pkt)) == Matched(orig, rules, pkt)
  {
    forall q | q in rules ensures KeyMatches(defs, q, FieldKey(defs, pkt)) <==> PacketMatches(orig, q, pkt) {
      KeyMatchesPacket(defs, q, pkt);
      ReducedMatches(orig, defs, rules, q, pkt);
    }
  }

  lemma FitsReduced(orig: seq<FieldDef>, defs: seq<FieldDef>, rules: seq<Rule>, pkt: seq<byte>)
    requires Reduced(orig, defs, rules) && Fits(orig, pkt)
    ensures Fits(defs, pkt)
  {
    forall n | 0 <= n < |defs| ensures defs[n].offset + defs[n].size <= |pkt| {
      assert defs[n] in orig;
      var k :| 0 <= k < |orig| && orig[k] == defs[n];
    }
  }

  lemma {:induction false} IndexLength(defs: seq<FieldDef>)
    ensures |Index(defs)| <= |defs|
    decreases |defs|
  {
    if defs != [] {
      IndexLength(defs[RunLen(defs)..]);
    }
  }

  /** The scan of the bytes a trie reads is the scan of the packet. */
  lemma {:induction false} ScansAgree(orig: seq<FieldDef>, defs: seq<FieldDef>, rules: seq<Rule>, pkt: seq<byte>,
      categories: nat, k: nat)
    requires Reduced(orig, defs, rules) && ValidRules(orig, rules) && ValidRules(defs, rules)
    requires Fits(orig, pkt) && Fits(defs, pkt) && k <= |rules|
    ensures Scan(defs, rules[..k], FieldKey(defs, pkt), categories) == PacketScan(orig, rules[..k], pkt, categories)
  {
    hide PacketMatches, KeyMatches, Reduced, Joined;
    if k > 0 {
      ScansAgree(orig, defs, rules, pkt, categories, k - 1);
      assert rules[..k][..k - 1] == rules[..k - 1];
      var q := rules[k - 1];
      KeyMatchesPacket(defs, q, pkt);
      ReducedMatches(orig, defs, rules, q, pkt);
    }
  }

  /** What the engine reads for a trie, and what the trie answers. */
  lemma BuiltAnswers(nodes: seq<Node>, t: Built, orig: seq<FieldDef>, categories: nat, pkt: seq<byte>)
    requires BuiltOk(nodes, t, orig, categories) && ValidRules(orig, t.rules) && Fits(orig, pkt) &&
      categories <= MAX_CATEGORIES
    ensures Reads(t.dataIndex, pkt) && |t.dataIndex| <= |orig|
    ensures |ChainLevels(Sizes(t.defs))| == 2 + 4 * (|t.dataIndex| - 1)
    ensures Answer(nodes, t.root, RunKey(t.dataIndex, pkt, true)) == ScanAnswer(orig, t.rules, pkt, categories)
    ensures TrieAnswer(ScanAnswer(orig, t.rules, pkt, categories), Matched(orig, t.rules, pkt), categories)
  {
    FitsReduced(orig, t.defs, t.rules, pkt);
    IndexFits(t.defs, pkt, true);
    IndexLength(t.defs);
    AlignedSize(t.defs, true);
    IndexKey(t.defs, pkt, true);
    HitsAreMatched(orig, t.defs, t.rules, pkt);
    ScansAgree(orig, t.defs, t.rules, pkt, categories, |t.rules|);
    assert t.rules[..|t.rules|] == t.rules;
    BestAnswer(nodes, t, categories, FieldKey(t.defs, pkt));
  }

  lemma BestAnswer(nodes: seq<Node>, t: Built, categories: nat, key: seq<byte>)
    requires ValidRules(t.defs, t.rules) && RefinesScan(nodes, t.root, t.defs, t.rules, categories) &&
      |key| == Sum(Sizes(t.defs))
    requires categories <= MAX_CATEGORIES
    ensures TrieAnswer(Answer(nodes, t.root, key), Hits(t.defs, t.rules, key), categories)
  {
    ScanFindsBest(t.defs, t.rules, key, categories);
    var hits := Hits(t.defs, t.rules, key);
    match Lookup(nodes, t.root, key)
    case None =>
    case Some(m) =>
      assert BestInCategory(m.priority[0], m.results[0], 0, hits, categories);
  }

  // ------------------------------------------------------------------ the best of all tries

  ghost predicate InTrie(tries: seq<Built>, t: nat, q: Rule) { t < |tries| && q in tries[t].rules }

  lemma {:induction false} RuleInTrie(tries: seq<Built>, q: Rule)
    ensures q in RulesOf(tries) <==> exists t: nat :: InTrie(tries, t, q)
  {
    if tries != [] {
      var n := |tries| - 1;
      RuleInTrie(tries[..n], q);
      forall t: nat ensures InTrie(tries[..n], t, q) ==> InTrie(tries, t, q) { }
      forall t: nat ensures InTrie(tries, t, q) ==> t == n || InTrie(tries[..n], t, q) { }
      assert q in tries[n].rules ==> InTrie(tries, n, q);
    }
  }

  // ----------------------------------------------------------------------------- building

  const NODE_MAX: nat := 0x4000
  const NODE_MIN: nat := 0x800
  const SIZE_MAX: nat := 0xffff_ffff_ffff_ffff
  const DATA_INDEX_SIZE: nat := MAX_FIELDS * MAX_TRIES * 4

  datatype Acl = Acl(tries: seq<Built>, rt: Runtime)
  datatype Error = Invalid | Range | NoMemory
  datatype Result = Done(acl: Acl) | Failed(error: Error)

  /** `acl` classifies by the rules; `nodes` and `index` are what it was generated from. */
  ghost predicate AclOk(acl: Acl, nodes: seq<Node>, index: map<nat, Word>, defs: seq<FieldDef>, rules: seq<Rule>,
      categories: nat) {
    && categories <= MAX_CATEGORIES && AllBuilt(nodes, acl.tries, defs, categories) && |acl.tries| > 0 &&
       SameMembers(RulesOf(acl.tries), rules)
    && Serves(acl.rt, nodes, index) && |acl.rt.roots| == |acl.tries|
    && forall t :: 0 <= t < |acl.tries| ==> RootServed(acl.rt, nodes, index, acl.rt.roots[t], acl.tries[t].root)
  }

  lemma BuiltAreTries(nodes: seq<Node>, tries: seq<Built>, orig: seq<FieldDef>, categories: nat, ids: seq<nat>,
      lss: seq<seq<nat>>)
    requires AllBuilt(nodes, tries, orig, categories) && |ids| == |lss| == |tries|
    requires forall t :: 0 <= t < |tries| ==> ids[t] == tries[t].root && lss[t] == ChainLevels(Sizes(tries[t].defs))
    ensures Tries(nodes, ids, lss, categories)
  {
    forall t | 0 <= t < |ids| ensures |lss[t]| > 1 && Wf(nodes, ids[t], lss[t],
      categories) && nodes[ids[t]].level == 0 {
      assert BuiltOk(nodes, tries[t], orig, categories);
      AlignedSize(tries[t].defs, true);
    }
  }

  function RootIds(tries: seq<Built>): (ids: seq<nat>)
    ensures |ids| == |tries| && forall t :: 0 <= t < |tries| ==> ids[t] == tries[t].root
  {
    seq(|tries|, t requires 0 <= t < |tries| => tries[t].root)
  }

  ghost function LevelsOf(tries: seq<Built>): (lss: seq<seq<nat>>)
    ensures |lss| == |tries| && forall t :: 0 <= t < |tries| ==> lss[t] == ChainLevels(Sizes(tries[t].defs))
  {
    seq(|tries|, t requires 0 <= t < |tries| => ChainLevels(Sizes(tries[t].defs)))
  }

  /**
    One round of a build: the limit, where the rules were split, and, if eight tries were enough, the tries and the
    bytes that they take.
  */
  datatype Attempt = Attempt(nodeMax: nat, log: seq<seq<nat>>, ok: bool, tries: seq<Built>, nodes: seq<Node>, need: nat)

  ghost predicate AttemptOk(a: Attempt, defs: seq<FieldDef>, rules: seq<Rule>, categories: nat,
      freed: (nat, nat) -> nat) {
    && Splits(a.log, freed, a.nodeMax, a.ok)
    && (a.ok ==>
          && Parts(a.tries, a.log) && AllBuilt(a.nodes, a.tries, defs, categories)
          && multiset(RulesOf(a.tries)) == multiset(rules) && Needs(a.nodes, RootIds(a.tries), 64 * 8 * 4, a.need))
  }

  ghost predicate TooLarge(a: Attempt, maxSize: nat) { a.ok && a.need > maxSize }

  ghost predicate Suits(a: Attempt, maxSize: nat, available: nat) {
    a.ok && a.need <= maxSize && a.need <= available
  }

  /** The result of a round. */
  ghost predicate Settles(a: Attempt, maxSize: nat, available: nat, r: Result) {
    && (r.Done? <==> Suits(a, maxSize, available))
    && (r == Failed(Range) <==> TooLarge(a, maxSize))
    && (r == Failed(NoMemory) <==> !a.ok || (a.need <= maxSize && a.need > available))
    && (r.Done? ==> r.acl.tries == a.tries)
  }

  /** One round of `rte_acl_build`: build the tries with at most `nodeMax` nodes each, then generate. */
  method BuildOnce(defs: seq<FieldDef>, rules: seq<Rule>, categories: nat, nodeMax: nat, maxSize: nat, available: nat,
      freed: (nat, nat) -> nat)
    returns (r: Result, ghost nodes: seq<Node>, ghost index: map<nat, Word>, ghost a: Attempt)
    requires categories <= MAX_CATEGORIES && ValidRules(defs, rules) && rules != [] && Aligned(defs, true) &&
      available < 8 * TYPE
    ensures r.Done? ==> AclOk(r.acl, nodes, index, defs, rules, categories)
    ensures a.nodeMax == nodeMax && AttemptOk(a, defs, rules, categories, freed)
    ensures Settles(a, maxSize, available, r)
  {
    hide AllBuilt, Needs, Splits, Parts, RulesOf, Tries, Serves, RootServed, ValidRules, Aligned, SameMembers;
    var bld := new Builder(categories);
    var ok, tries;
    ghost var log;
    ok, tries, log := BuildTries(bld, defs, rules, nodeMax, freed);
    nodes, index, a := bld.nodes, map[], Attempt(nodeMax, log, ok, tries, bld.nodes, 0);
    if !ok {
      return Failed(NoMemory), nodes, index, a;
    }
    BuiltAreTries(bld.nodes, tries, defs, categories, RootIds(tries), LevelsOf(tries));
    var g, need, ix, _, _ := Generate(bld.nodes, categories, RootIds(tries), LevelsOf(tries), DATA_INDEX_SIZE, maxSize,
      available);
    a := a.(need := need);
    if g.None? {
      return Failed(if need > maxSize then Range else NoMemory), nodes, index, a;
    }
    index := ix;
    SamePermuted(RulesOf(tries), rules);
    r := Done(Acl(tries, g.value));
  }

  lemma SamePermuted(a: seq<Rule>, b: seq<Rule>)
    requires multiset(a) == multiset(b)
    ensures SameMembers(a, b)
  {
    forall q ensures q in a <==> q in b {
      assert q in multiset(a) <==> q in multiset(b);
    }
  }

  /** A rule is of use when it applies in some configured category. */
  predicate InUse(q: Rule, categories: nat) { exists c :: c in q.categories && c < categories }

  /** `acl_build_rules`: the rules of use, last one first. */
  method UsefulRules(rules: seq<Rule>, categories: nat) returns (kept: seq<Rule>)
    ensures forall q :: q in kept <==> q in rules && InUse(q, categories)
  {
    kept := [];
    for i := 0 to |rules|
      invariant forall q :: q in kept <==> q in rules[..i] && InUse(q, categories)
    {
      if exists c :: c in rules[i].categories && c < categories {
        kept := [rules[i]] + kept;
      }
    }
  }

  /** A configuration that is not refused outright. */
  predicate ParamsOk(defs: seq<FieldDef>, categories: nat) {
    && 0 < categories <= MAX_CATEGORIES && 0 < |defs| <= MAX_FIELDS
    && forall i :: 0 <= i < |defs| ==> defs[i].size in [1, 2, 4, 8]
  }

  /** `acl_check_bld_param`. */
  method CheckParams(defs: seq<FieldDef>, categories: nat) returns (ok: bool)
    ensures ok <==> ParamsOk(defs, categories)
  {
    if categories == 0 || categories > MAX_CATEGORIES || |defs| == 0 || |defs| > MAX_FIELDS {
      return false;
    }
    var sizes: seq<nat> := [1, 2, 4, 8];
    for i := 0 to |defs|
      invariant forall k :: 0 <= k < i ==> defs[k].size in sizes
    {
      var j := 0;
      while j != |sizes| && defs[i].size != sizes[j]
        invariant j <= |sizes| && defs[i].size !in sizes[..j]
      {
        j := j + 1;
      }
      if j == |sizes| {
        return false;
      }
    }
    return true;
  }

  /** The limits that are tried in turn. */
  function Limits(maxSize: nat): seq<nat> { if maxSize == 0 then [0x800] else [0x4000, 0x2000, 0x1000, 0x800] }

  function MaxBytes(maxSize: nat): nat { if maxSize == 0 then 0xffff_ffff_ffff_ffff else maxSize }

  /** The rounds of a build with result `r`: one for each limit, until a structure is not too large. */
  ghost predicate Rounds(tried: seq<Attempt>, defs: seq<FieldDef>, rules: seq<Rule>, categories: nat, maxSize: nat,
      available: nat, freed: nat -> (nat, nat) -> nat, r: Result) {
    && 0 < |tried| <= |Limits(maxSize)|
    && RoundsOk(tried, defs, rules, categories, maxSize, freed)
    && (forall i :: 0 <= i < |tried| - 1 ==> TooLarge(tried[i], MaxBytes(maxSize)))
    && Settles(tried[|tried| - 1], MaxBytes(maxSize), available, r)
    && (r == Failed(Range) ==> |tried| == |Limits(maxSize)|)
  }

  ghost predicate RoundsOk(tried: seq<Attempt>, defs: seq<FieldDef>, rules: seq<Rule>, categories: nat, maxSize: nat,
      freed: nat -> (nat, nat) -> nat) {
    && |tried| <= |Limits(maxSize)|
    && forall i :: 0 <= i < |tried| ==>
         tried[i].nodeMax == Limits(maxSize)[i] && AttemptOk(tried[i], defs, rules, categories, freed(tried[i].nodeMax))
  }

  /** A build succeeds exactly if the structure for some limit tried suits. */
  lemma DoneIff(tried: seq<Attempt>, defs: seq<FieldDef>, rules: seq<Rule>, categories: nat, maxSize: nat,
      available: nat, freed: nat -> (nat, nat) -> nat, r: Result)
    requires Rounds(tried, defs, rules, categories, maxSize, available, freed, r)
    ensures r.Done? <==> exists i :: 0 <= i < |tried| && Suits(tried[i], MaxBytes(maxSize), available)
    ensures r == Failed(Range) <==>
      |tried| == |Limits(maxSize)| && forall i :: 0 <= i < |tried| ==> TooLarge(tried[i], MaxBytes(maxSize))
  {
    hide RoundsOk;
    if r.Done? {
      assert Suits(tried[|tried| - 1], MaxBytes(maxSize), available);
    }
  }

  /** `rte_acl_build`: smaller and smaller tries until the structure fits. */
  method Build(defs: seq<FieldDef>, rules: seq<Rule>, categories: nat, maxSize: nat, available: nat,
      freed: nat -> (nat, nat) -> nat)
    returns (r: Result, ghost kept: seq<Rule>, ghost nodes: seq<Node>, ghost index: map<nat, Word>,
      ghost tried: seq<Attempt>)
    requires ParamsOk(defs, categories) ==> ValidRules(defs, rules) && Aligned(defs, true)
    requires available < 8 * TYPE
    ensures r == Failed(Invalid) <==> !ParamsOk(defs, categories) || forall q :: q in rules ==> !InUse(q, categories)
    ensures r.Done? ==> AclOk(r.acl, nodes, index, defs, kept, categories) && |defs| <= MAX_FIELDS
    ensures r != Failed(Invalid) ==> forall q :: q in kept <==> q in rules && InUse(q, categories)
    ensures r != Failed(Invalid) ==> Rounds(tried, defs, kept, categories, maxSize, available, freed, r)
  {
    hide AttemptOk, AclOk;
    kept, nodes, index, tried := [], [], map[], [];
    var ok := CheckParams(defs, categories);
    if !ok {
      return Failed(Invalid), kept, nodes, index, tried;
    }
    var mine := UsefulRules(rules, categories);
    kept := mine;
    if mine == [] {
      return Failed(Invalid), kept, nodes, index, tried;
    }
    assert mine[0] in rules && InUse(mine[0], categories);
    r, nodes, index, tried := TryLimits(defs, mine, categories, maxSize, available, freed);
  }

  /** All rounds but the last were too large, and the last one settles the result. */
  ghost predicate Going(tried: seq<Attempt>, limit: nat, available: nat, r: Result) {
    if tried == [] then r == Failed(Range)
    else
      && Settles(tried[|tried| - 1], limit, available, r)
      && forall i :: 0 <= i < |tried| - 1 ==> TooLarge(tried[i], limit)
  }

  lemma OneMoreRound(tried: seq<Attempt>, a: Attempt, limit: nat, available: nat, r: Result)
    requires Going(tried, limit, available, Failed(Range)) && Settles(a, limit, available, r)
    ensures Going(tried + [a], limit, available, r)
  {
  }

  /** The loop of `rte_acl_build`. */
  method TryLimits(defs: seq<FieldDef>, rules: seq<Rule>, categories: nat, maxSize: nat, available: nat,
      freed: nat -> (nat, nat) -> nat)
    returns (r: Result, ghost nodes: seq<Node>, ghost index: map<nat, Word>, ghost tried: seq<Attempt>)
    requires categories <= MAX_CATEGORIES && ValidRules(defs, rules) && rules != [] && Aligned(defs, true)
    requires available < 8 * TYPE
    ensures r != Failed(Invalid)
    ensures r.Done? ==> AclOk(r.acl, nodes, index, defs, rules, categories)
    ensures Rounds(tried, defs, rules, categories, maxSize, available, freed, r)
  {
    hide AttemptOk, AclOk, Settles, Going, TooLarge, ValidRules, Aligned;
    NothingTried(MaxBytes(maxSize), available);
    nodes, index, tried := [], map[], [];
    var n, limit := NODE_MAX, maxSize;
    if maxSize == 0 {
      n, limit := NODE_MIN, SIZE_MAX;
    }
    r := Failed(Range);
    while n >= NODE_MIN && r == Failed(Range)
      invariant r.Done? ==> AclOk(r.acl, nodes, index, defs, rules, categories)
      invariant RoundsOk(tried, defs, rules, categories, maxSize, freed) && Going(tried, limit, available, r)
      invariant n == if |tried| < |Limits(maxSize)| then Limits(maxSize)[|tried|] else NODE_MIN / 2
      invariant r != Failed(Range) ==> tried != []
      decreases n
    {
      var m := n;
      ghost var a;
      r, nodes, index, a := BuildOnce(defs, rules, categories, n, limit, available, freed(m));
      OneMoreRound(tried, a, limit, available, r);
      tried := tried + [a];
      n := n / 2;
    }
    RoundsDone(tried, limit, available, r);
  }

  lemma NothingTried(limit: nat, available: nat)
    ensures Going([], limit, available, Failed(Range))
  {
  }

  lemma RoundsDone(tried: seq<Attempt>, limit: nat, available: nat, r: Result)
    requires tried != [] && Going(tried, limit, available, r)
    ensures Settles(tried[|tried| - 1], limit, available, r) && r != Failed(Invalid)
    ensures forall i :: 0 <= i < |tried| - 1 ==> TooLarge(tried[i], limit)
  {
  }

  // -------------------------------------------------------------------------- classifying

  ghost function AnswersOf(acl: Acl, nodes: seq<Node>, packets: seq<seq<byte>>): Answers {
    (t: nat, p: nat) =>
      if t < |acl.tries| && p < |packets| then Answer(nodes, acl.tries[t].root,
        RunKey(acl.tries[t].dataIndex, packets[p], true)) else Zero
  }

  ghost function TracesOf(acl: Acl, nodes: seq<Node>, index: map<nat, Word>, packets: seq<seq<byte>>): Traces {
    (t: nat, p: nat) =>
      if t < |acl.tries| && p < |packets| then
        var di := acl.tries[t].dataIndex;
        var key := RunKey(di, packets[p], true);
        if |di| > 0 && |key| == 1 + 4 * (|di| - 1) then TraceOf(nodes, index, acl.tries[t].root, key, |di|) else []
      else []
  }

  function Refs(acl: Acl): (refs: seq<TrieRef>)
    requires |acl.rt.roots| == |acl.tries|
    ensures |refs| == |acl.tries| && forall t :: 0 <= t < |refs| ==>
      refs[t] == TrieRef(acl.rt.roots[t], acl.tries[t].dataIndex)
  {
    seq(|acl.tries|, t requires 0 <= t < |acl.tries| => TrieRef(acl.rt.roots[t], acl.tries[t].dataIndex))
  }

  ghost predicate PacketsFit(defs: seq<FieldDef>, packets: seq<seq<byte>>) {
    forall p :: 0 <= p < |packets| ==> Fits(defs, packets[p])
  }

  lemma BuiltWf(nodes: seq<Node>, t: Built, orig: seq<FieldDef>, categories: nat)
    requires BuiltOk(nodes, t, orig, categories)
    ensures Wf(nodes, t.root, ChainLevels(Sizes(t.defs)), categories)
  {
  }

  lemma RulesValid(acl: Acl, defs: seq<FieldDef>, rules: seq<Rule>, t: nat)
    requires SameMembers(RulesOf(acl.tries), rules) && ValidRules(defs, rules) && t < |acl.tries|
    ensures ValidRules(defs, acl.tries[t].rules)
  {
    forall q | q in acl.tries[t].rules ensures ValidRule(defs, q) {
      assert InTrie(acl.tries, t, q);
      RuleInTrie(acl.tries, q);
    }
  }

  lemma PairTraced(acl: Acl, nodes: seq<Node>, index: map<nat, Word>, defs: seq<FieldDef>, rules: seq<Rule>,
      categories: nat, packets: seq<seq<byte>>, j: Job, t: nat, p: nat)
    requires AclOk(acl, nodes, index, defs, rules, categories) && |defs| <= MAX_FIELDS && PacketsFit(defs, packets)
    requires j.table == acl.rt.table && j.matches == acl.rt.matches && j.tries == Refs(acl)
    requires t < |acl.tries| && p < |packets| && ValidRules(defs, acl.tries[t].rules)
    ensures Traced(j, j.tries[t], packets[p], AnswersOf(acl, nodes, packets)(t, p),
      TracesOf(acl, nodes, index, packets)(t, p))
    ensures AnswersOf(acl, nodes, packets)(t, p) == ScanAnswer(defs, acl.tries[t].rules, packets[p], categories)
    ensures TrieAnswer(AnswersOf(acl, nodes, packets)(t, p), Matched(defs, acl.tries[t].rules, packets[p]), categories)
  {
    hide ScanAnswer, Traced, Serves, RootServed, TrieAnswer, Wf, BuiltOk, Reads, Matched, ValidRules;
    var b := acl.tries[t];
    assert BuiltOk(nodes, b, defs, categories);
    BuiltWf(nodes, b, defs, categories);
    BuiltAnswers(nodes, b, defs, categories, packets[p]);
    assert RootServed(acl.rt, nodes, index, acl.rt.roots[t], b.root);
    TraceIsTraced(j, acl.rt, nodes, index, b.root, ChainLevels(Sizes(b.defs)), categories, j.tries[t], packets[p]);
  }

  ghost function HitsOf(acl: Acl, defs: seq<FieldDef>, pkt: seq<byte>): nat -> set<Rule>
    requires Fits(defs, pkt)
  {
    (t: nat) => if t < |acl.tries| && ValidRules(defs, acl.tries[t].rules) then Matched(defs, acl.tries[t].rules,
      pkt) else {}
  }

  lemma HitsTogether(acl: Acl, defs: seq<FieldDef>, rules: seq<Rule>, pkt: seq<byte>)
    requires SameMembers(RulesOf(acl.tries), rules) && ValidRules(defs, rules) && Fits(defs, pkt)
    ensures Together(Matched(defs, rules, pkt), HitsOf(acl, defs, pkt), |acl.tries|)
  {
    var hits := HitsOf(acl, defs, pkt);
    forall q ensures q in Matched(defs, rules, pkt) <==> exists t: nat :: t < |acl.tries| && q in hits(t) {
      RuleInTrie(acl.tries, q);
      if q in Matched(defs, rules, pkt) {
        var t: nat :| InTrie(acl.tries, t, q);
        RulesValid(acl, defs, rules, t);
        assert q in hits(t);
      }
      if t: nat :| t < |acl.tries| && q in hits(t) {
        assert InTrie(acl.tries, t, q);
      }
    }
  }

  /** What linear scans of the rules of each trie find. */
  ghost function ScansOf(acl: Acl, defs: seq<FieldDef>, packets: seq<seq<byte>>, categories: nat): Answers {
    (t: nat, p: nat) =>
      if t < |acl.tries| && p < |packets| && ValidRules(defs, acl.tries[t].rules) && Fits(defs, packets[p])
      then ScanAnswer(defs, acl.tries[t].rules, packets[p], categories) else Zero
  }

  /** The engine's answers are those of linear scans. */
  lemma AnswersAreScans(acl: Acl, nodes: seq<Node>, index: map<nat, Word>, defs: seq<FieldDef>, rules: seq<Rule>,
      categories: nat,
                        packets: seq<seq<byte>>, t: nat, p: nat)
    requires AclOk(acl, nodes, index, defs, rules, categories) && ValidRules(defs, rules) && |defs| <= MAX_FIELDS &&
      PacketsFit(defs, packets)
    requires t < |acl.tries| && p < |packets|
    ensures AnswersOf(acl, nodes, packets)(t, p) == ScansOf(acl, defs, packets, categories)(t, p)
    ensures TrieAnswer(ScansOf(acl, defs, packets, categories)(t, p), HitsOf(acl, defs, packets[p])(t), categories)
  {
    hide ScanAnswer, Traced, Serves, RootServed, TrieAnswer, BuiltOk, Matched;
    RulesValid(acl, defs, rules, t);
    var j := Job(acl.rt.table, acl.rt.matches, Refs(acl), packets, 1, 1);
    PairTraced(acl, nodes, index, defs, rules, categories, packets, j, t, p);
  }

  lemma OrderIs(order: seq<nat>, n: nat)
    requires multiset(order) == multiset(Numbers(n))
    ensures Permutes(order, n) && (n > 0 ==> order != [])
  {
    SameEmpty(order, Numbers(n));
    if n > 0 {
      assert 0 in Numbers(n);
    }
  }

  /** A row that folds the engine's answers folds those of linear scans. */
  lemma RowOfScans(acl: Acl, nodes: seq<Node>, index: map<nat, Word>, defs: seq<FieldDef>, rules: seq<Rule>,
      categories: nat,
                   packets: seq<seq<byte>>, p: nat, order: seq<nat>, row: seq<nat>)
    requires AclOk(acl, nodes, index, defs, rules, categories) && ValidRules(defs, rules) && |defs| <= MAX_FIELDS &&
      PacketsFit(defs, packets)
    requires p < |packets| && multiset(order) == multiset(Numbers(|acl.tries|))
    requires RowFolds(AnswersOf(acl, nodes, packets), p, order, row)
    ensures RowFolds(ScansOf(acl, defs, packets, categories), p, order, row)
  {
    hide ScanAnswer, AclOk, Fold;
    var a, b := AnswersOf(acl, nodes, packets), ScansOf(acl, defs, packets, categories);
    OrderIs(order, |acl.tries|);
    forall c: nat | order != [] && c < |row| ensures row[c] == Fold(b, p, order, c).0 {
      forall t | t in order ensures a(t, p) == b(t, p) {
        AnswersAreScans(acl, nodes, index, defs, rules, categories, packets, t, p);
      }
      FoldSame(a, b, p, order, c);
    }
  }

  /**
    The exact outcome: after resolving the tries of packet `p` in this order, a rule wins in category `c` if and only if
    one with positive priority applies or the linear scan of the trie resolved last ends with a rule.
  */
  lemma ExactlyWins(acl: Acl, nodes: seq<Node>, index: map<nat, Word>, defs: seq<FieldDef>, rules: seq<Rule>,
      categories: nat,
                    packets: seq<seq<byte>>, p: nat, order: seq<nat>, row: seq<nat>, c: nat)
    requires AclOk(acl, nodes, index, defs, rules, categories) && ValidRules(defs, rules) && |defs| <= MAX_FIELDS &&
      PacketsFit(defs, packets)
    requires p < |packets| && multiset(order) == multiset(Numbers(|acl.tries|)) && c < |row| <= MAX_CATEGORIES
    requires RowFolds(ScansOf(acl, defs, packets, categories), p, order, row)
    requires forall q :: q in rules ==> q.priority >= 0 && q.userdata != 0
    ensures order != []
    ensures var all := Matched(defs, rules, packets[p]);
      Wins(row[c], all, c, categories) <==>
      !SomeApplies(all, c, categories) || SomePositive(all, c, categories)
      || ResultAt(ScansOf(acl, defs, packets, categories)(order[|order| - 1], p), c) != 0
  {
    hide ScanAnswer, AclOk, Fold, Wins, SomeApplies, SomePositive, TrieAnswer, ScansOf;
    RootCount(acl, nodes, index, defs, rules, categories);
    OrderIs(order, |acl.tries|);
    var scans, hits := ScansOf(acl, defs, packets, categories), HitsOf(acl, defs, packets[p]);
    var all := Matched(defs, rules, packets[p]);
    HoldsRules(acl, nodes, index, defs, rules, categories);
    HitsTogether(acl, defs, rules, packets[p]);
    forall u: nat | u < |acl.tries| ensures TrieAnswer(scans(u, p), hits(u), categories) {
      AnswersAreScans(acl, nodes, index, defs, rules, categories, packets, u, p);
    }
    WinsIff(scans, p, hits, all, |acl.tries|, c, order, categories);
  }

  lemma HoldsRules(acl: Acl, nodes: seq<Node>, index: map<nat, Word>, defs: seq<FieldDef>, rules: seq<Rule>,
      categories: nat)
    requires AclOk(acl, nodes, index, defs, rules, categories)
    ensures SameMembers(RulesOf(acl.tries), rules)
  {
  }

  lemma RowIsOk(acl: Acl, nodes: seq<Node>, index: map<nat, Word>, defs: seq<FieldDef>, rules: seq<Rule>,
      categories: nat,
                packets: seq<seq<byte>>, j: Job, p: nat, row: seq<nat>, c: nat)
    requires AclOk(acl, nodes, index, defs, rules, categories) && ValidRules(defs, rules) && |defs| <= MAX_FIELDS &&
      PacketsFit(defs, packets)
    requires j.table == acl.rt.table && j.matches == acl.rt.matches && j.tries == Refs(acl)
    requires p < |packets| && c < j.categories <= MAX_CATEGORIES && forall q :: q in rules ==> q.priority >= 0
    requires BestRow(AnswersOf(acl, nodes, packets), p, Numbers(|acl.tries|), row, j.categories)
    ensures ResultOk(row[c], Matched(defs, rules, packets[p]), c, categories)
  {
    hide Traced, Serves, RootServed, TrieAnswer, Wf, BuiltOk, ResultOk;
    var answer, hits := AnswersOf(acl, nodes, packets), HitsOf(acl, defs, packets[p]);
    forall u: nat | u < |acl.tries| ensures TrieAnswer(answer(u, p), hits(u), categories) {
      RulesValid(acl, defs, rules, u);
      PairTraced(acl, nodes, index, defs, rules, categories, packets, j, u, p);
    }
    HitsTogether(acl, defs, rules, packets[p]);
    assert SomeChosen(answer, p, Numbers(|acl.tries|), c, row[c]);
    var t: nat :| Chosen(answer, p, Numbers(|acl.tries|), c, t, row[c]);
    ChosenIsOk(answer, p, hits, Matched(defs, rules, packets[p]), |acl.tries|, c, t, row[c], categories);
  }

  lemma JobIsOk(acl: Acl, nodes: seq<Node>, index: map<nat, Word>, defs: seq<FieldDef>, rules: seq<Rule>,
      categories: nat, packets: seq<seq<byte>>, j: Job)
    requires AclOk(acl, nodes, index, defs, rules, categories) && ValidRules(defs, rules) && |defs| <= MAX_FIELDS &&
      PacketsFit(defs, packets)
    requires j.table == acl.rt.table && j.matches == acl.rt.matches && j.tries == Refs(acl) && j.packets == packets
    requires j.n >= 1 && 1 <= j.categories <= MAX_CATEGORIES
    ensures JobOk(j, TracesOf(acl, nodes, index, packets), AnswersOf(acl, nodes, packets))
  {
    hide Traced, RootServed, Wf, BuiltOk;
    var trace, answer := TracesOf(acl, nodes, index, packets), AnswersOf(acl, nodes, packets);
    forall t, p | 0 <= t < |j.tries| && 0 <= p < |j.packets|
      ensures Traced(j, j.tries[t], j.packets[p], answer(t, p), trace(t, p)) &&
        |answer(t, p).results| == |answer(t, p).priority| == MAX_CATEGORIES
    {
      RulesValid(acl, defs, rules, t);
      PairTraced(acl, nodes, index, defs, rules, categories, packets, j, t, p);
    }
  }

  /** Rules that are of no use do not change what is promised. */
  lemma UselessRules(result: nat, some: set<Rule>, all: set<Rule>, c: nat, categories: nat)
    requires ResultOk(result, some, c, categories) && forall q :: q in some <==> q in all && InUse(q, categories)
    ensures ResultOk(result, all, c, categories)
  {
    forall r | Applies(r, c, categories) ensures InUse(r, categories) { }
    if q :| IsTop(q, some, c, categories) && result == q.userdata {
      assert IsTop(q, all, c, categories);
    }
  }

  /** `rte_acl_classify` with `n` traversals at a time. */
  method Classify(acl: Acl, packets: seq<seq<byte>>, categories: nat, n: nat, buffer: seq<seq<nat>>,
                  ghost nodes: seq<Node>, ghost index: map<nat, Word>, ghost defs: seq<FieldDef>,
                  ghost rules: seq<Rule>, ghost kept: seq<Rule>, ghost configured: nat)
    returns (ok: bool, results: seq<seq<nat>>, ghost orders: seq<seq<nat>>)
    requires AclOk(acl, nodes, index, defs, kept, configured) && ValidRules(defs, rules) && |defs| <= MAX_FIELDS &&
      PacketsFit(defs, packets)
    requires forall q :: q in kept <==> q in rules && InUse(q, configured)
    requires forall q :: q in rules ==> q.priority >= 0
    requires n >= 1 && 1 <= categories <= MAX_CATEGORIES
    requires |buffer| == |packets| && forall p :: 0 <= p < |packets| ==> |buffer[p]| == categories
    ensures ok <==> categories == 1 || categories % 4 == 0
    ensures ok ==> |results| == |packets| && forall p :: 0 <= p < |packets| ==>
      RowOk(results[p], Matched(defs, rules, packets[p]), categories, configured)
    ensures ok ==> |orders| == |packets| && forall p :: 0 <= p < |packets| ==>
      && multiset(orders[p]) == multiset(Numbers(|acl.tries|))
      && RowFolds(ScansOf(acl, defs, packets, configured), p, orders[p], results[p])
  {
    hide AclOk, ResultOk, BestRow, JobOk, RowFolds;
    if categories != 1 && categories % 4 != 0 {
      return false, buffer, [];
    }
    ghost var answer := AnswersOf(acl, nodes, packets);
    RootCount(acl, nodes, index, defs, kept, configured);
    var j := Job(acl.rt.table, acl.rt.matches, Refs(acl), packets, categories, n);
    JobIsOk(acl, nodes, index, defs, kept, configured, packets, j);
    var engine := new Engine(j, buffer, TracesOf(acl, nodes, index, packets), answer);
    engine.Classify();
    ok, results, orders := true, engine.results, engine.orders;
    forall p | 0 <= p < |packets| ensures RowFolds(ScansOf(acl, defs, packets, configured), p, orders[p], results[p]) {
      RowOfScans(acl, nodes, index, defs, kept, configured, packets, p, orders[p], results[p]);
    }
    forall p | 0 <= p < |packets| ensures RowOk(results[p], Matched(defs, rules, packets[p]), categories, configured) {
      RowSize(answer, p, Numbers(|acl.tries|), results[p], categories);
      forall c: nat | c < categories ensures ResultOk(results[p][c], Matched(defs, rules, packets[p]), c, configured) {
        RowIsOk(acl, nodes, index, defs, kept, configured, packets, j, p, results[p], c);
        UselessRules(results[p][c], Matched(defs, kept, packets[p]), Matched(defs, rules, packets[p]), c, configured);
      }
    }
  }

  lemma RootCount(acl: Acl, nodes: seq<Node>, index: map<nat, Word>, defs: seq<FieldDef>, rules: seq<Rule>,
      categories: nat)
    requires AclOk(acl, nodes, index, defs, rules, categories)
    ensures |acl.rt.roots| == |acl.tries| > 0
  {
  }

  lemma RowSize(answer: Answers, p: nat, d: set<nat>, row: seq<nat>, categories: nat)
    requires BestRow(answer, p, d, row, categories)
    ensures |row| == categories
  {
  }
}
