/**
  What the classifier promises about a result, and when a rule is sure to win.
*/
module AclSpec {
  import opened Basics
  import opened AclTrie
  import opened AclBuilder
  import opened AclRules
  import opened AclConfig
  import opened AclGen
  import opened AclRun
  import opened AclOrder

  // ----------------------------------------------------------------- what is promised

  /** The rules that match a packet. */
  ghost function Matched(defs: seq<FieldDef>, rules: seq<Rule>, pkt: seq<byte>): set<Rule>
    requires ValidRules(defs, rules) && Fits(defs, pkt)
  {
    set q | q in rules && PacketMatches(defs, q, pkt)
  }

  /** Rule `q` applies in category `c`. */
  predicate Applies(q: Rule, c: nat, categories: nat) { c < categories && c in q.categories }

  /** `q` is one of `hits` that applies in category `c` and has the highest priority of those. */
  ghost predicate IsTop(q: Rule, hits: set<Rule>, c: nat, categories: nat) {
    && q in hits && Applies(q, c, categories)
    && forall r :: r in hits && Applies(r, c, categories) ==> r.priority <= q.priority
  }

  /**
    `result` is the user data of a top rule of the category. Zero stands for "no rule",
    and may also hide rules when the top priority is zero.
  */
  ghost predicate ResultOk(result: nat, hits: set<Rule>, c: nat, categories: nat) {
    || (exists q :: IsTop(q, hits, c, categories) && result == q.userdata)
    || (result == 0 && forall r :: r in hits && Applies(r, c, categories) ==> r.priority == 0)
  }

  /** One result per category, each as promised. */
  ghost predicate RowOk(row: seq<nat>, hits: set<Rule>, categories: nat, configured: nat) {
    |row| == categories && forall c: nat :: c < categories ==> ResultOk(row[c], hits, c, configured)
  }

  /** With positive priorities a result says exactly whether a rule applies, and names a top one. */
  lemma PositivePriorities(result: nat, hits: set<Rule>, c: nat, categories: nat)
    requires ResultOk(result, hits, c, categories)
    requires forall q :: q in hits ==> q.priority > 0 && q.userdata != 0
    ensures result == 0 <==> forall q :: q in hits ==> !Applies(q, c, categories)
    ensures result != 0 ==> exists q :: IsTop(q, hits, c, categories) && result == q.userdata
  {
  }

  /** The result names a rule that wins, or is zero when no rule applies. */
  ghost predicate Wins(result: nat, hits: set<Rule>, c: nat, categories: nat) {
    if SomeApplies(hits, c, categories) then exists q ::
      IsTop(q, hits, c, categories) && result == q.userdata else result == 0
  }

  ghost predicate SomeApplies(hits: set<Rule>, c: nat, categories: nat) { exists q ::
      q in hits && Applies(q, c, categories) }

  ghost predicate SomePositive(hits: set<Rule>, c: nat, categories: nat) {
    exists q :: q in hits && Applies(q, c, categories) && q.priority > 0
  }

  // ------------------------------------------------------------------------ a linear scan

  /** A linear scan of the rules over a packet, first to last, that joins the results of those that match. */
  ghost function PacketScan(defs: seq<FieldDef>, rules: seq<Rule>, pkt: seq<byte>, categories: nat): Option<Match>
    requires ValidRules(defs, rules) && Fits(defs, pkt)
    decreases |rules|
  {
    if rules == [] then None
    else
      var n := |rules| - 1;
      Joined(PacketScan(defs, rules[..n], pkt, categories),
             if PacketMatches(defs, rules[n], pkt) then Some(RuleMatch(rules[n], categories)) else None)
  }

  /** The same, with zeros when no rule matches. */
  ghost function ScanAnswer(defs: seq<FieldDef>, rules: seq<Rule>, pkt: seq<byte>, categories: nat): Match
    requires ValidRules(defs, rules) && Fits(defs, pkt)
  {
    match PacketScan(defs, rules, pkt, categories)
    case None => Zero
    case Some(m) => m
  }

  // --------------------------------------------------------------- from tries to all rules

  /** What a search of one trie returns, given the rules of the trie that match. */
  ghost predicate TrieAnswer(m: Match, hits: set<Rule>, categories: nat) {
    if hits == {} then m == Zero else Best(Some(m), hits, categories)
  }

  /** The priority of a trie's answer is at least that of each of its rules. */
  lemma AnswerCovers(m: Match, hits: set<Rule>, c: nat, categories: nat, q: Rule)
    requires TrieAnswer(m, hits, categories) && q in hits && Applies(q, c, categories) && c < MAX_CATEGORIES
    ensures q.priority <= m.priority[c]
  {
    assert BestInCategory(m.priority[c], m.results[c], c, hits, categories);
    assert CategoryPriority(q, c, categories) <= m.priority[c];
  }

  /** The answer of a trie is that of one of its rules, or zero. */
  lemma AnswerFrom(m: Match, hits: set<Rule>, c: nat, categories: nat) returns (q: Option<Rule>)
    requires TrieAnswer(m, hits, categories) && c < MAX_CATEGORIES
    ensures q.Some? ==>
      q.value in hits && Applies(q.value, c, categories) && m.priority[c] == q.value.priority &&
        m.results[c] == q.value.userdata
    ensures q.None? ==> m.priority[c] == 0 && m.results[c] == 0
  {
    if hits == {} {
      return None;
    }
    assert BestInCategory(m.priority[c], m.results[c], c, hits, categories);
    var r :| r in hits && CategoryPriority(r, c, categories) == m.priority[c] &&
      CategoryResult(r, c, categories) == m.results[c];
    return if Applies(r, c, categories) then Some(r) else None;
  }

  /** The tries `n` of which `hits(t)` are the rules that match; together they are `all`. */
  ghost predicate Together(all: set<Rule>, hits: nat -> set<Rule>, n: nat) {
    forall q :: q in all <==> exists t: nat :: t < n && q in hits(t)
  }

  lemma ChosenIsOk(answer: Answers, p: nat, hits: nat -> set<Rule>, all: set<Rule>, n: nat, c: nat, t: nat,
      result: nat, categories: nat)
    requires Together(all, hits, n) && c < MAX_CATEGORIES && forall q :: q in all ==> q.priority >= 0
    requires forall u: nat :: u < n ==> TrieAnswer(answer(u, p), hits(u), categories)
    requires Chosen(answer, p, Numbers(n), c, t, result)
    ensures ResultOk(result, all, c, categories)
  {
    var m := answer(t, p);
    forall r | r in all && Applies(r, c, categories) ensures r.priority <= m.priority[c] {
      var u: nat :| u < n && r in hits(u);
      AnswerCovers(answer(u, p), hits(u), c, categories, r);
    }
    var q := AnswerFrom(m, hits(t), c, categories);
    if q.Some? {
      assert q.value in all;
      assert IsTop(q.value, all, c, categories);
    }
  }

  // ------------------------------------------------------------------- when a rule wins

  /** The answers of all tries to one packet, and the rules of each that match. */
  ghost predicate Answering(answer: Answers, p: nat, hits: nat -> set<Rule>, all: set<Rule>, n: nat, categories: nat) {
    && Together(all, hits, n) && (forall q :: q in all ==> q.priority >= 0 && q.userdata != 0)
    && forall u: nat :: u < n ==> TrieAnswer(answer(u, p), hits(u), categories)
  }

  /** The answer in category `c` is that of a rule that applies. */
  ghost predicate OfRule(m: Match, all: set<Rule>, c: nat, categories: nat)
    requires m.Sized() && c < MAX_CATEGORIES
  {
    exists q :: q in all && Applies(q, c, categories) && m.results[c] == q.userdata && m.priority[c] == q.priority
  }

  /** A trie's answer in one category: a rule that applies, or nothing at all. */
  lemma AnswerAt(answer: Answers, p: nat, hits: nat -> set<Rule>, all: set<Rule>, n: nat, c: nat, t: nat,
      categories: nat)
    requires Answering(answer, p, hits, all, n, categories) && c < MAX_CATEGORIES && t < n
    ensures answer(t, p).Sized() && answer(t, p).priority[c] >= 0
    ensures answer(t, p).results[c] == 0 ==> answer(t, p).priority[c] == 0
    ensures answer(t, p).results[c] != 0 ==> OfRule(answer(t, p), all, c, categories)
  {
    var q := AnswerFrom(answer(t, p), hits(t), c, categories);
    if q.Some? {
      assert q.value in all;
    }
  }

  /** Every rule that applies is covered by the answer of some trie. */
  lemma RuleCovered(answer: Answers, p: nat, hits: nat -> set<Rule>, all: set<Rule>, n: nat, c: nat, categories: nat,
      q: Rule) returns (u: nat)
    requires Answering(answer, p, hits, all, n, categories) && c < MAX_CATEGORIES && q in all &&
      Applies(q, c, categories)
    ensures u < n && answer(u, p).Sized() && q.priority <= answer(u, p).priority[c]
  {
    u :| u < n && q in hits(u);
    AnswerCovers(answer(u, p), hits(u), c, categories, q);
  }

  ghost predicate Permutes(order: seq<nat>, n: nat) { forall t: nat :: t in order <==> t < n }

  /**
    A rule wins if and only if one with positive priority applies, or the trie that is resolved last
    answers with a rule; when no rule applies there is nothing to win.
  */
  lemma WinsIff(answer: Answers, p: nat, hits: nat -> set<Rule>, all: set<Rule>, n: nat, c: nat, order: seq<nat>,
      categories: nat)
    requires Answering(answer, p, hits, all, n, categories) && c < MAX_CATEGORIES && order != [] && Permutes(order, n)
    ensures Wins(Fold(answer, p, order, c).0, all, c, categories) <==>
      !SomeApplies(all, c, categories) || SomePositive(all, c, categories) ||
        ResultAt(answer(order[|order| - 1], p), c) != 0
  {
    hide Fold;
    var i := FoldIsLastBest(answer, p, order, c);
    var last := |order| - 1;
    assert order[i] in order && order[last] in order;
    AnswerAt(answer, p, hits, all, n, c, order[i], categories);
    AnswerAt(answer, p, hits, all, n, c, order[last], categories);
    forall r | r in all && Applies(r, c, categories) ensures r.priority <= answer(order[i], p).priority[c] {
      var u := RuleCovered(answer, p, hits, all, n, c, categories, r);
      assert u in order;
      var k :| 0 <= k < |order| && order[k] == u;
    }
    FoldWins(answer(order[i], p), all, c, categories);
    if !SomePositive(all, c, categories) {
      assert answer(order[i], p).priority[c] == 0;
      assert i == last;
    }
  }

  lemma FoldWins(m: Match, all: set<Rule>, c: nat, categories: nat)
    requires m.Sized() && c < MAX_CATEGORIES && forall q :: q in all ==> q.priority >= 0 && q.userdata != 0
    requires forall r :: r in all && Applies(r, c, categories) ==> r.priority <= m.priority[c]
    requires m.results[c] == 0 ==> m.priority[c] == 0
    requires m.results[c] != 0 ==> OfRule(m, all, c, categories)
    ensures Wins(m.results[c], all, c, categories) <==> !SomeApplies(all, c, categories) || m.results[c] != 0
    ensures SomePositive(all, c, categories) ==> m.results[c] != 0
    ensures m.results[c] != 0 && !SomePositive(all, c, categories) ==> m.priority[c] == 0
  {
    if m.results[c] != 0 {
      var q :| q in all && Applies(q, c, categories) && m.results[c] == q.userdata && m.priority[c] == q.priority;
      assert IsTop(q, all, c, categories);
    }
  }

  /**
    With one category every useful rule applies, so that a trie answers with a rule exactly when one of its rules
    matches.
  */
  lemma OneCategory(answer: Answers, p: nat, hits: nat -> set<Rule>, all: set<Rule>, n: nat, t: nat)
    requires Answering(answer, p, hits, all, n, 1) && t < n && forall q :: q in all ==> 0 in q.categories
    ensures ResultAt(answer(t, p), 0) != 0 <==> hits(t) != {}
  {
    var m := answer(t, p);
    if hits(t) != {} {
      assert BestInCategory(m.priority[0], m.results[0], 0, hits(t), 1);
      var r :| r in hits(t) && CategoryPriority(r, 0, 1) == m.priority[0] && CategoryResult(r, 0, 1) == m.results[0];
      assert r in all;
    }
  }

  /** One trie and one category: a rule wins whatever its priority. */
  lemma OneTrieWins(answer: Answers, p: nat, hits: nat -> set<Rule>, all: set<Rule>)
    requires Answering(answer, p, hits, all, 1, 1) && forall q :: q in all ==> 0 in q.categories
    ensures Wins(Fold(answer, p, [0], 0).0, all, 0, 1)
  {
    WinsIff(answer, p, hits, all, 1, 0, [0], 1);
    OneCategory(answer, p, hits, all, 1, 0);
    if SomeApplies(all, 0, 1) {
      var q :| q in all && Applies(q, 0, 1);
      var u: nat :| u < 1 && q in hits(u);
    }
  }

  /**
    Two tries and one category: a rule `q` of priority 0 that matches in one of them, and nothing that matches in
    the other. Resolved in this order the rule is lost; in the other order it wins.
  */
  method ZeroPriorityLost(q: Rule) returns (lost: seq<nat>, won: seq<nat>)
    requires q.priority == 0 && 0 in q.categories && q.userdata != 0
    ensures lost == [0] && won == [q.userdata]
  {
    var found := RuleResults(q, 1);
    var none := Zero.priority;
    var row, priority := Resolve([0], none, found, true, 1);
    lost, priority := Resolve(row, priority, Zero, false, 1);
    row, priority := Resolve([0], none, Zero, true, 1);
    won, priority := Resolve(row, priority, found, false, 1);
  }
}
