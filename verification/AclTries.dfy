/**
  Sorting of rules by wildness and `acl_build_tries`: the rules are split over up
  to eight tries that together find the best matching rules.
*/
module AclTries {
  import opened Basics
  import opened AclTrie
  import opened AclField
  import opened AclBuilder
  import opened AclRules
  import opened AclConfig
  import opened AclIndex

  const MAX_TRIES: nat := 8

  // ----------------------------------------------------------------------------- sort

  predicate Comparable(defs: seq<FieldDef>, r: Rule) {
    forall n :: 0 <= n < |defs| ==> defs[n].size > 0 && defs[n].fieldIndex < |r.fields|
  }

  /** Difference in the first field, from `n` on, in which the wildness differs. */
  function CompareFrom(defs: seq<FieldDef>, n: nat, a: Rule, b: Rule): int
    requires Comparable(defs, a) && Comparable(defs, b)
    decreases |defs| - n
  {
    if n >= |defs| then 0
    else if WildnessIn(defs[n], a) != WildnessIn(defs[n], b) then WildnessIn(defs[n], a) - WildnessIn(defs[n], b)
    else CompareFrom(defs, n + 1, a, b)
  }

  /** `a` may stand before `b`. */
  predicate Wilder(defs: seq<FieldDef>, a: Rule, b: Rule)
    requires Comparable(defs, a) && Comparable(defs, b)
  {
    CompareFrom(defs, 1, a, b) >= 0
  }

  lemma {:induction false} CompareTransitive(defs: seq<FieldDef>, n: nat, a: Rule, b: Rule, c: Rule)
    requires Comparable(defs, a) && Comparable(defs, b) && Comparable(defs, c)
    requires CompareFrom(defs, n, a, b) >= 0 && CompareFrom(defs, n, b, c) >= 0
    ensures CompareFrom(defs, n, a, c) >= 0
    decreases |defs| - n
  {
    if n < |defs| && WildnessIn(defs[n], a) == WildnessIn(defs[n], b) == WildnessIn(defs[n], c) {
      CompareTransitive(defs, n + 1, a, b, c);
    }
  }

  lemma {:induction false} CompareAntisymmetric(defs: seq<FieldDef>, n: nat, a: Rule, b: Rule)
    requires Comparable(defs, a) && Comparable(defs, b)
    ensures CompareFrom(defs, n, a, b) == -CompareFrom(defs, n, b, a)
    decreases |defs| - n
  {
    if n < |defs| { CompareAntisymmetric(defs, n + 1, a, b); }
  }

  /** `rule_cmp_wildness`: the first field is not compared. */
  method CompareWildness(defs: seq<FieldDef>, a: Rule, b: Rule) returns (r: int)
    requires Comparable(defs, a) && Comparable(defs, b)
    ensures r == CompareFrom(defs, 1, a, b)
  {
    var n := 1;
    while n < |defs|
      invariant 1 <= n
      invariant CompareFrom(defs, 1, a, b) == CompareFrom(defs, n, a, b)
    {
      if WildnessIn(defs[n], a) != WildnessIn(defs[n], b) {
        return WildnessIn(defs[n], a) - WildnessIn(defs[n], b);
      }
      n := n + 1;
    }
    r := 0;
  }

  ghost predicate AllComparable(defs: seq<FieldDef>, rules: seq<Rule>) {
    forall k :: 0 <= k < |rules| ==> Comparable(defs, rules[k])
  }

  ghost predicate Sorted(defs: seq<FieldDef>, rules: seq<Rule>)
    requires AllComparable(defs, rules)
  {
    forall i, j :: 0 <= i < j < |rules| ==> Wilder(defs, rules[i], rules[j])
  }

  /** `rule_list_split`: `slow` ends before the midpoint. */
  method SplitList(source: seq<Rule>) returns (a: seq<Rule>, b: seq<Rule>)
    ensures source == a + b
    ensures |source| >= 2 ==> 0 < |a| < |source|
    ensures |source| < 2 ==> b == []
  {
    if |source| < 2 {
      return source, [];
    }
    var slow, fast := 0, 1;
    while fast < |source|
      invariant 0 <= slow < fast <= |source|
      invariant fast == 2 * slow + 1 || (fast == 2 * slow + 2 && fast == |source|)
    {
      fast := fast + 1;
      if fast < |source| {
        slow := slow + 1;
        fast := fast + 1;
      }
    }
    a, b := source[..slow + 1], source[slow + 1..];
  }

  ghost predicate Before(defs: seq<FieldDef>, r: seq<Rule>, a: seq<Rule>, i: nat)
    requires AllComparable(defs, r) && AllComparable(defs, a)
  {
    forall x, y :: 0 <= x < |r| && i <= y < |a| ==> Wilder(defs, r[x], a[y])
  }

  /** `r` is the merge of the first `i` rules of `a` and the first `j` of `b`. */
  ghost predicate Merging(defs: seq<FieldDef>, a: seq<Rule>, i: nat, b: seq<Rule>, j: nat, r: seq<Rule>) {
    && i <= |a| && j <= |b|
    && AllComparable(defs, a) && AllComparable(defs, b) && Sorted(defs, a) && Sorted(defs, b)
    && AllComparable(defs, r) && Sorted(defs, r)
    && multiset(r) == multiset(a[..i]) + multiset(b[..j])
    && Before(defs, r, a, i) && Before(defs, r, b, j)
  }

  lemma TakeNext(defs: seq<FieldDef>, a: seq<Rule>, i: nat, b: seq<Rule>, j: nat, r: seq<Rule>)
    requires Merging(defs, a, i, b, j, r) && i < |a| && j < |b| && Wilder(defs, a[i], b[j])
    ensures Merging(defs, a, i + 1, b, j, r + [a[i]])
  {
    TakeSnoc(a, i);
    forall y | j <= y < |b| ensures Wilder(defs, a[i], b[y]) {
      if j < y { CompareTransitive(defs, 1, a[i], b[j], b[y]); }
    }
  }

  lemma TakeRest(defs: seq<FieldDef>, a: seq<Rule>, i: nat, b: seq<Rule>, r: seq<Rule>)
    requires Merging(defs, a, i, b, |b|, r)
    ensures var all := r + a[i..];
      multiset(all) == multiset(a) + multiset(b) && AllComparable(defs, all) && Sorted(defs, all)
  {
    assert a == a[..i] + a[i..] && b[..|b|] == b;
  }

  /** `rule_list_sorted_merge`. */
  method SortedMerge(defs: seq<FieldDef>, a: seq<Rule>, b: seq<Rule>) returns (r: seq<Rule>)
    requires AllComparable(defs, a) && AllComparable(defs, b) && Sorted(defs, a) && Sorted(defs, b)
    ensures multiset(r) == multiset(a) + multiset(b)
    ensures AllComparable(defs, r) && Sorted(defs, r)
  {
    r := [];
    var i, j := 0, 0;
    while true
      invariant Merging(defs, a, i, b, j, r)
      decreases |a| - i + |b| - j
    {
      if i == |a| {
        TakeRest(defs, b, j, a, r);
        return r + b[j..];
      } else if j == |b| {
        TakeRest(defs, a, i, b, r);
        return r + a[i..];
      }
      var c := CompareWildness(defs, a[i], b[j]);
      if c >= 0 {
        TakeNext(defs, a, i, b, j, r);
        r := r + [a[i]];
        i := i + 1;
      } else {
        CompareAntisymmetric(defs, 1, a[i], b[j]);
        TakeNext(defs, b, j, a, i, r);
        r := r + [b[j]];
        j := j + 1;
      }
    }
  }

  /** `sort_rules`: an ordered permutation of the rules. */
  method SortRules(defs: seq<FieldDef>, rules: seq<Rule>) returns (r: seq<Rule>)
    requires AllComparable(defs, rules)
    ensures multiset(r) == multiset(rules)
    ensures AllComparable(defs, r) && Sorted(defs, r)
    decreases |rules|
  {
    if |rules| < 2 {
      return rules;
    }
    var a, b := SplitList(rules);
    PartsComparable(defs, a, b);
    a := SortRules(defs, a);
    b := SortRules(defs, b);
    r := SortedMerge(defs, a, b);
  }

  lemma PartsComparable(defs: seq<FieldDef>, a: seq<Rule>, b: seq<Rule>)
    requires AllComparable(defs, a + b)
    ensures AllComparable(defs, a) && AllComparable(defs, b)
  {
    assert forall k :: 0 <= k < |a| ==> (a + b)[k] == a[k];
    assert forall k :: 0 <= k < |b| ==> (a + b)[|a| + k] == b[k];
  }

  // -------------------------------------------------------------- reduced configurations

  ghost predicate SameMembers(a: seq<Rule>, b: seq<Rule>) {
    forall q :: q in a <==> q in b
  }

  lemma PermutationMembers(a: seq<Rule>, b: seq<Rule>)
    requires multiset(a) == multiset(b)
    ensures SameMembers(a, b) && |a| == |b|
  {
    forall q ensures q in a <==> q in b {
      assert q in a <==> q in multiset(a);
      assert q in b <==> q in multiset(b);
    }
    assert |multiset(a)| == |a| && |multiset(b)| == |b|;
  }

  /** `defs` is `orig` without fields that are wild in all `rules`. */
  ghost predicate Reduced(orig: seq<FieldDef>, defs: seq<FieldDef>, rules: seq<Rule>) {
    && |defs| <= |orig|
    && (forall q :: q in rules ==> Comparable(orig, q))
    && (forall def :: def in defs ==> def in orig)
    && (forall def :: def in orig ==> def in defs || WildEverywhere(def, rules))
  }

  ghost predicate WildEverywhere(def: FieldDef, rules: seq<Rule>) {
    && def.size > 0
    && forall q :: q in rules ==> def.fieldIndex < |q.fields| && WildnessIn(def, q) >= 100
  }

  lemma ReducedTwice(orig: seq<FieldDef>, mid: seq<FieldDef>, defs: seq<FieldDef>, rules: seq<Rule>, fewer: seq<Rule>)
    requires Reduced(orig, mid, rules) && Reduced(mid, defs, fewer) && forall q :: q in fewer ==> q in rules
    ensures Reduced(orig, defs, fewer)
  {
    forall def | def in orig ensures def in defs || WildEverywhere(def, fewer) {
      if def in mid {
        assert def in defs || WildEverywhere(def, fewer);
      }
    }
  }

  lemma ValidIsComparable(defs: seq<FieldDef>, rules: seq<Rule>)
    requires ValidRules(defs, rules)
    ensures AllComparable(defs, rules)
    ensures forall q :: q in rules ==> Comparable(defs, q)
    ensures rules != [] ==> forall n :: 0 <= n < |defs| ==> defs[n].size > 0 && forall q :: q in rules ==>
      defs[n].fieldIndex < |q.fields|
  {
    forall q | q in rules ensures Comparable(defs, q) {
      assert ValidRule(defs, q);
    }
    if rules != [] {
      assert rules[0] in rules;
    }
  }

  lemma KeptReduced(defs: seq<FieldDef>, wild: seq<bool>, rules: seq<Rule>)
    requires |wild| == |defs| && ValidRules(defs, rules)
    requires forall n :: 0 <= n < |defs| && wild[n] ==> WildEverywhere(defs[n], rules)
    ensures Reduced(defs, Kept(defs, wild, true), rules)
  {
    ValidIsComparable(defs, rules);
    KeptFromDefs(defs, wild, true);
  }

  lemma ReducedValid(orig: seq<FieldDef>, defs: seq<FieldDef>, rules: seq<Rule>, fewer: seq<Rule>)
    requires ValidRules(orig, rules) && (forall q :: q in fewer ==> q in rules)
    requires forall def :: def in defs ==> def in orig
    ensures ValidRules(defs, fewer)
  {
    forall q | q in fewer ensures ValidRule(defs, q) {
      assert ValidRule(orig, q);
      forall n | 0 <= n < |defs|
        ensures defs[n].fieldIndex < |q.fields| && ValidField(defs[n], q.fields[defs[n].fieldIndex])
      {
        assert defs[n] in orig;
      }
    }
  }

  // ------------------------------------------------------------------- building the tries

  datatype Built = Built(root: nat, defs: seq<FieldDef>, rules: seq<Rule>, dataIndex: seq<nat>)

  /** What is known about a finished trie of the configuration `orig`. */
  ghost predicate BuiltOk(nodes: seq<Node>, t: Built, orig: seq<FieldDef>, categories: nat) {
    && ValidRules(t.defs, t.rules) && t.rules != []
    && Reduced(orig, t.defs, t.rules)
    && Aligned(t.defs, true)
    && t.dataIndex == Index(t.defs)
    && RefinesScan(nodes, t.root, t.defs, t.rules, categories)
  }

  /** `build_one_trie`. */
  method BuildOne(bld: Builder, defs: seq<FieldDef>, rules: seq<Rule>, limit: Option<nat>, freed: nat -> nat)
    returns (t: Built, last: Option<nat>, ghost grown: seq<nat>)
    requires bld.categories <= MAX_CATEGORIES
    requires ValidRules(defs, rules) && rules != [] && Aligned(defs, true)
    modifies bld
    ensures old(bld.nodes) <= bld.nodes
    ensures multiset(t.rules) == multiset(rules) && SameMembers(t.rules, rules) && |t.rules| == |rules|
    ensures Reduced(defs, t.defs, rules) && Aligned(t.defs, true) && ValidRules(t.defs, t.rules)
    ensures t.dataIndex == Index(t.defs)
    ensures limit.None? ==> last.None?
    ensures last.None? ==> RefinesScan(bld.nodes, t.root, t.defs, t.rules, bld.categories)
    ensures last.None? ==> |grown| == |rules| && (limit.Some? ==> NoneExceeds(grown, freed, limit.value))
    ensures last.Some? ==> limit.Some? && LastExceeds(grown, freed, limit.value)
    ensures last.Some? ==> last.value + 2 == |grown| <= |rules|
    ensures |old(bld.nodes)| + Sum(grown) <= |bld.nodes|
  {
    ValidIsComparable(defs, rules);
    ghost var wild := WildFields(defs, rules);
    var kept := RuleStats(rules, defs);
    KeptReduced(defs, wild, rules);
    KeptAligned(defs, wild, true);
    ReducedValid(defs, kept, rules, rules);
    ValidIsComparable(kept, rules);
    var sorted := SortRules(kept, rules);
    PermutationMembers(sorted, rules);
    ReducedValid(defs, kept, rules, sorted);
    var di := BuildIndex(kept);
    AlignedSize(kept, true);
    var root, l;
    root, l, grown := BuildTrie(bld, kept, sorted, limit, freed);
    t, last := Built(root, kept, sorted, di), l;
  }

  function RulesOf(tries: seq<Built>): seq<Rule> {
    if tries == [] then [] else RulesOf(tries[..|tries| - 1]) + tries[|tries| - 1].rules
  }

  ghost predicate AllBuilt(nodes: seq<Node>, tries: seq<Built>, orig: seq<FieldDef>, categories: nat) {
    forall i :: 0 <= i < |tries| ==> BuiltOk(nodes, tries[i], orig, categories)
  }

  lemma AllBuiltFrame(nodes: seq<Node>, new_: seq<Node>, tries: seq<Built>, orig: seq<FieldDef>, categories: nat)
    requires AllBuilt(nodes, tries, orig, categories) && nodes <= new_
    ensures AllBuilt(new_, tries, orig, categories)
  {
    forall i | 0 <= i < |tries| ensures BuiltOk(new_, tries[i], orig, categories) {
      assert BuiltOk(nodes, tries[i], orig, categories);
      RefinesFrame(nodes, new_, tries[i].root, tries[i].defs, tries[i].rules, categories);
    }
  }

  /**
    `acl_build_tries`. The tries hold a partition of the rules, and each of them finds
    what a scan of its rules finds. `freed` tells how many nodes each merge released. Fails exactly
    when eight tries do not suffice: a split is made where a merge exceeds the limit and nowhere
    else. `log` has, for each trie, the nodes that the merges added before the split.
  */
  method BuildTries(bld: Builder, orig: seq<FieldDef>, rules: seq<Rule>, nodeMax: nat, freed: (nat, nat) -> nat)
    returns (ok: bool, tries: seq<Built>, ghost log: seq<seq<nat>>)
    requires bld.categories <= MAX_CATEGORIES
    requires ValidRules(orig, rules) && rules != [] && Aligned(orig, true)
    modifies bld
    ensures Splits(log, freed, nodeMax, ok) && (ok ==> Parts(tries, log))
    ensures ok ==> 0 < |tries| <= MAX_TRIES
    ensures ok ==> AllBuilt(bld.nodes, tries, orig, bld.categories)
    ensures ok ==> multiset(RulesOf(tries)) == multiset(rules)
  {
    hide AllBuilt, BuiltOk, Remaining, Partition, RulesOf, LastExceeds, NoneExceeds;
    tries, log := [], [];
    var defs, rest := orig, rules;
    NothingBuilt(bld.nodes, orig, rules, bld.categories);
    while true
      invariant |tries| == |log| < MAX_TRIES && SplitsSoFar(log, freed, nodeMax) && PartsSoFar(tries, log)
      invariant AllBuilt(bld.nodes, tries, orig, bld.categories)
      invariant Remaining(orig, defs, rest) && Partition(tries, rest, rules)
      decreases |rest|
    {
      var n := |tries|;
      ghost var before := bld.nodes;
      var t, last;
      ghost var grown;
      t, last, grown := BuildNext(bld, orig, defs, rest, nodeMax, k => freed(2 * n, k));
      log := log + [grown];
      AllBuiltFrame(before, bld.nodes, tries, orig, bld.categories);
      if last.None? {
        Appended(bld.nodes, tries, t, [], rest, rules, orig, bld.categories);
        NothingLeft(tries + [t], rules);
        return true, tries + [t], log;
      }
      if n + 1 == MAX_TRIES {
        return false, tries, log;
      }
      var mine, others := t.rules[..last.value + 1], t.rules[last.value + 1..];
      before := bld.nodes;
      var t' := Rebuild(bld, orig, t.defs, t.rules, mine, others, k => freed(2 * n + 1, k));
      AllBuiltFrame(before, bld.nodes, tries, orig, bld.categories);
      Appended(bld.nodes, tries, t', others, rest, rules, orig, bld.categories);
      tries := tries + [t'];
      defs, rest := t.defs, others;
    }
  }

  /** For every trie but the last a merge exceeded the limit; for the last one exactly if eight were not enough. */
  ghost predicate Splits(log: seq<seq<nat>>, freed: (nat, nat) -> nat, nodeMax: nat, ok: bool) {
    && 0 < |log| <= 8
    && SplitsSoFar(if ok then log[..|log| - 1] else log, freed, nodeMax)
    && if ok then NoneExceeds(log[|log| - 1], k => freed(2 * (|log| - 1), k), nodeMax) else |log| == 8
  }

  ghost predicate SplitsSoFar(log: seq<seq<nat>>, freed: (nat, nat) -> nat, nodeMax: nat) {
    forall i :: 0 <= i < |log| ==> LastExceeds(log[i], k => freed(2 * i, k), nodeMax)
  }

  /** A trie has the rules before the one that was too much, and the last trie has all that are left. */
  ghost predicate Parts(tries: seq<Built>, log: seq<seq<nat>>) {
    && |tries| == |log| > 0 && PartsSoFar(tries[..|tries| - 1], log[..|log| - 1])
    && |tries[|tries| - 1].rules| == |log[|log| - 1]|
  }

  ghost predicate PartsSoFar(tries: seq<Built>, log: seq<seq<nat>>) {
    |tries| == |log| && forall i :: 0 <= i < |tries| ==> |tries[i].rules| + 1 == |log[i]|
  }

  lemma NothingBuilt(nodes: seq<Node>, orig: seq<FieldDef>, rules: seq<Rule>, categories: nat)
    requires ValidRules(orig, rules) && rules != [] && Aligned(orig, true)
    ensures AllBuilt(nodes, [], orig, categories) && Remaining(orig, orig, rules) && Partition([], rules, rules)
  {
    ReducedSelf(orig, rules);
  }

  lemma NothingLeft(tries: seq<Built>, rules: seq<Rule>)
    requires Partition(tries, [], rules)
    ensures multiset(RulesOf(tries)) == multiset(rules)
  {
  }

  /** Rules that remain to be put into tries, with the configuration they use. */
  ghost predicate Remaining(orig: seq<FieldDef>, defs: seq<FieldDef>, rest: seq<Rule>) {
    rest != [] && ValidRules(defs, rest) && Aligned(defs, true) && Reduced(orig, defs, rest)
  }

  ghost predicate Partition(tries: seq<Built>, rest: seq<Rule>, rules: seq<Rule>) {
    multiset(RulesOf(tries)) + multiset(rest) == multiset(rules)
  }

  lemma Appended(nodes: seq<Node>, tries: seq<Built>, t: Built, others: seq<Rule>, rest: seq<Rule>, rules: seq<Rule>,
      orig: seq<FieldDef>, categories: nat)
    requires AllBuilt(nodes, tries, orig, categories) && BuiltOk(nodes, t, orig, categories)
    requires Partition(tries, rest, rules) && multiset(t.rules) + multiset(others) == multiset(rest)
    ensures AllBuilt(nodes, tries + [t], orig, categories) && Partition(tries + [t], others, rules)
  {
    assert (tries + [t])[..|tries|] == tries;
  }

  /** Build a trie for all remaining rules; it is finished unless it got too big. */
  method BuildNext(bld: Builder, ghost orig: seq<FieldDef>, defs: seq<FieldDef>, rest: seq<Rule>, nodeMax: nat,
      freed: nat -> nat)
    returns (t: Built, last: Option<nat>, ghost grown: seq<nat>)
    requires bld.categories <= MAX_CATEGORIES && Remaining(orig, defs, rest)
    modifies bld
    ensures old(bld.nodes) <= bld.nodes
    ensures multiset(t.rules) == multiset(rest) && |t.rules| == |rest|
    ensures Remaining(orig, t.defs, t.rules)
    ensures last.None? ==> BuiltOk(bld.nodes, t, orig, bld.categories)
    ensures last.None? ==> |grown| == |rest| && NoneExceeds(grown, freed, nodeMax)
    ensures last.Some? ==> LastExceeds(grown, freed, nodeMax) && last.value + 2 == |grown| <= |t.rules|
  {
    t, last, grown := BuildOne(bld, defs, rest, Some(nodeMax), freed);
    ReducedFewer(defs, t.defs, rest, t.rules);
    ReducedTwice(orig, defs, t.defs, rest, t.rules);
  }

  /** Rebuild the trie for the reduced rule set `mine`, without any further split. */
  method Rebuild(bld: Builder, ghost orig: seq<FieldDef>, defs: seq<FieldDef>, ghost rules: seq<Rule>, mine: seq<Rule>,
      ghost others: seq<Rule>, freed: nat -> nat)
    returns (t: Built)
    requires bld.categories <= MAX_CATEGORIES && mine != [] && others != []
    requires Remaining(orig, defs, rules) && rules == mine + others
    modifies bld
    ensures old(bld.nodes) <= bld.nodes
    ensures multiset(t.rules) + multiset(others) == multiset(rules) && |t.rules| == |mine|
    ensures BuiltOk(bld.nodes, t, orig, bld.categories)
    ensures Remaining(orig, defs, others)
  {
    SubsetOf(orig, defs, rules, mine);
    SubsetOf(orig, defs, rules, others);
    var l;
    ghost var grown;
    t, l, grown := BuildOne(bld, defs, mine, None, freed);
    ReducedFewer(defs, t.defs, mine, t.rules);
    ReducedTwice(orig, defs, t.defs, rules, t.rules);
  }

  lemma ReducedFewer(orig: seq<FieldDef>, defs: seq<FieldDef>, rules: seq<Rule>, fewer: seq<Rule>)
    requires Reduced(orig, defs, rules) && forall q :: q in fewer ==> q in rules
    ensures Reduced(orig, defs, fewer)
  {
  }

  lemma SubsetOf(orig: seq<FieldDef>, defs: seq<FieldDef>, rules: seq<Rule>, fewer: seq<Rule>)
    requires ValidRules(defs, rules) && Reduced(orig, defs, rules) && forall q :: q in fewer ==> q in rules
    ensures ValidRules(defs, fewer) && Reduced(orig, defs, fewer)
  {
    ReducedFewer(orig, defs, rules, fewer);
  }

  lemma ReducedSelf(orig: seq<FieldDef>, rules: seq<Rule>)
    requires ValidRules(orig, rules)
    ensures Reduced(orig, orig, rules)
  {
    ValidIsComparable(orig, rules);
  }
}
