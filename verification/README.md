# Verified models of twister's packet classifier, distributor, JSON library and line editor

Four libraries of the twister tree, modelled in Dafny and proved against what they are for.
`dafny verify dfyconfig.toml` checks everything; no file depends on anything outside this directory.

**The ACL classifier (librte_acl)** compiles prioritised rules into a transition table and
pushes packets through it. The model follows the code in four layers.

- *Tries* (`AclTrie`, `AclMerge`, `AclBuilder`): nodes live in an arena, a `seq` that the
  class `Builder` updates; node numbers play the part of pointers. A trie means what a
  lookup finds. `Builder.Merge` is the recursive merge with its double loop, reference
  counts and in-place update at level 0, proved to find for every input exactly the join of
  what both tries find.
- *Rules* (`AclField`, `AclMiniTrie`, `AclRules`, `AclConfig`, `AclIndex`, `AclTries`): the
  mini-trie of each field, chaining, merging rule by rule, wildness, dropping of input
  groups, the merge sort and the split into several tries.
- *The table* (`AclWord`, `AclNodes`, `AclRuns`, `AclLayout`, `AclStore`, `AclCount`, `AclGen`,
  `AclTable`): the four encodings of nodes, the word-parallel comparison of
  `scalar_transition`, counting, placement and generation into one `array` of words.
- *The engine* (`AclRun`, `AclRunSteps`, `AclOrder`, `AclEngine`, `AclClassify`): the class `Engine` with
  its slots, completion records and flow state, for any number of interleaved traversals. A ghost
  log has the order in which the tries of each packet are resolved.

`AclSpec` states what is promised of a result, and `AclMain` joins the layers: `Build` followed by
`Classify` refines a linear scan of the rules of each trie, resolved in the order of that log.

**The packet distributor (librte_distributor)** is a state machine over atomic steps of one
distributor and n workers that share one flagged word each (`DistState`). Calls to
`rte_distributor_process` nest when a worker shuts down, so a state has a stack of calls.
`DistInv` is the invariant, `DistSteps` shows that every step keeps it, and `DistTheorems` draws the
conclusions for all interleavings. `DistProgress` shows what a call gets done: whose turn it is, and
that what can be handed out is. `DistMisuse` has runs of the same steps in which a worker breaks
a condition. `DistRing` has the rings and the bit scan that the state machine takes as queues and
as a search.

**cJSON** has parser and printer as functions (`Json`), their round trip (`JsonRoundTrip`), minifying
(`JsonMinify`), and the code that does the work: the cursor-based parser (`JsonParser`), the
growing print buffer (`JsonBuffer`, `JsonPow2`) and the allocating printers (`JsonAlloc`), each proved to
compute the functions. The parser's methods and the minifier report whether they stay in the text
and in their buffers; `JsonSafe` says for which texts they do. `JsonGrammar` and `JsonTexts` have the
grammar of RFC 8259 (sections 2 to 7) with its values, and what the parser makes of every text of it;
`JsonUnicode` has a UTF-8 decoder (section 3 of RFC 3629), and `JsonLayout` says what printed text
looks like, each without the code that is compared with it.

**The line editor (librte_cmdline)** has the circular buffer (`CmdCirbuf`), the editor with its
history (`CmdRdline`), the number token automaton (`CmdNum`), and numbers as they are written
(`CmdNumText`).

Where a promise fails of the code, the model keeps the code and states the exact condition:

- `AclField.RangeExactIff` and `AclField.MaskLenExact`: the fields that a mini-trie is exact for.
- `AclSpec.WinsIff`, and `AclMain.ExactlyWins` for a built classifier: when a top rule is returned.
- `DistRing.ScanExactIff`: the number of workers for which the bit scan finds the right one.
- `Cirbuf.AlignRight` and `Cirbuf.GetBufTail`: when the circular buffer does what their names say.
- `Rdline.Browse`: when looking through the history leaves it as it was. `Rdline.Return`: when the
  length handed to the callback is that of the text.
- `JsonSafe.SafeIff`: the strings on which `parse_string` keeps within the text and its buffer.
  `JsonMinify.Minify`: the texts in which the minifier stays.
- `JsonPow2.Pow2GtIs`: the arguments for which the result is an `int`.

Conditions on callers are those of the headers and of the code. The first input group has one
byte and every other group four (rte_acl.h:74-78). Fields have at most 4 bytes. Ranges are not
inverted (low above high) and are boxable. Packets hold all configured fields. A distributor worker does nothing
after it has returned its last packet, and does not return while the distributor is answering a
request of its own; `DistMisuse` shows what happens otherwise.

The comment at rte_distributor.c:317-320 allows 64 workers; the shift of an `int` allows 32.
The second branch of `cirbuf_align_right` stops on `start` and not on `end` (cmdline_cirbuf.c:271).

## Model

| member | source | states |
|---|---|---|
| `AclMain.Build` | dpdk/lib/librte_acl/acl_bld.c:1549-1598 | A build is refused as invalid exactly when the parameters are bad or no rule applies in a configured category; otherwise the limits 0x4000 to 0x800 (0x800 alone without a size limit) are tried in turn until the structure is not too large, and the last round decides: done, too large at every limit, or no memory; a finished build has tries that partition the useful rules, each finding on every input exactly what a linear scan of its rules finds, and a table that represents those tries |
| `AclMain.DoneIff` | dpdk/lib/librte_acl/acl_bld.c:1563-1598 | A build succeeds if and only if the structure for some limit tried fits the size allowed and the memory, and is out of range if and only if it is too large at every limit |
| `AclMain.TryLimits` | dpdk/lib/librte_acl/acl_bld.c:1563-1598 | The loop over the limits makes exactly those rounds |
| `AclMain.BuildOnce` | dpdk/lib/librte_acl/acl_bld.c:1571-1590 | A round is out of range exactly when its tries take more than the size allowed, and without memory exactly when eight tries do not suffice or the memory is missing |
| `AclMain.Classify` | dpdk/lib/librte_acl/rte_acl.h:284-285 | For every built classifier, batch of packets and number of interleaved traversals: every result is the user data of a matching rule of highest priority in its category, or 0 when none applies (or when only rules of priority 0 do); exactly, a row is the fold of linear scans of the rules of each trie, in an order in which every trie comes once; refused exactly when the number of categories is neither 1 nor a multiple of 4 |
| `AclSpec.WinsIff` | dpdk/lib/librte_acl/acl_run_scalar.c:43-95 | For every order in which the tries are resolved: a top rule is returned, 0 when none applies, if and only if no rule applies, or one of positive priority does, or the trie resolved last has a result |
| `AclMain.ExactlyWins` | dpdk/lib/librte_acl/acl_run.h:229-261 | The same condition for the rows that `Classify` gives for a built classifier |
| `AclMain.AnswersAreScans` | dpdk/lib/librte_acl/acl_bld.c:1303-1376 | What the trie of a built classifier finds for a packet is what a linear scan of its rules finds |
| `AclSpec.OneTrieWins` | dpdk/lib/librte_acl/acl_run.h:229-261 | With one category and one trie a top rule always wins, priority 0 included |
| `AclSpec.PositivePriorities` | dpdk/lib/librte_acl/rte_acl.h:284-285 | With positive priorities a result is 0 exactly when no rule applies, and otherwise names a top rule |
| `AclSpec.ZeroPriorityLost` | dpdk/lib/librte_acl/acl_run_scalar.c:43-95 | Two tries resolved one after the other, as the code resolves them: a rule of priority 0 is lost when the trie without a match comes last, and wins when it comes first |
| `AclMain.ReducedMatches` | dpdk/lib/librte_acl/acl_bld.c:1077-1149 | Dropping fields that are wild in all rules of a trie changes no rule's match on any packet |
| `AclSpec.ChosenIsOk` | dpdk/lib/librte_acl/acl_run.h:229-261 | The best answer over all tries is a top rule over all rules, however the rules are split into tries |
| `AclMain.UsefulRules` | dpdk/lib/librte_acl/acl_bld.c:1401-1439 | Exactly the rules with a configured category are kept |
| `AclMain.UselessRules` | dpdk/lib/librte_acl/acl_bld.c:1401-1439 | Rules without a configured category do not change what is promised about a result |
| `AclMain.CheckParams` | dpdk/lib/librte_acl/acl_bld.c:1509-1547 | Accepted exactly: 1 to 16 categories, 1 to 64 fields, field sizes 1, 2, 4 or 8 |
| `AclBuilder.Builder.Merge` | dpdk/lib/librte_acl/acl_bld.c:617-794 | Merging any two well-formed tries of equal depth gives a well-formed trie whose lookup of every input is exactly the join of the two lookups; at level 0 A is replaced in place, below no existing node changes, also when A or B is returned instead of the copy |
| `AclBuilder.Builder.MergeInner` | dpdk/lib/librte_acl/acl_bld.c:650-759 | The merged node joins A and B; no reference of B used means it has the transitions of A, no reference of A left means it has those of B |
| `AclBuilder.Builder.MergeChildren` | dpdk/lib/librte_acl/acl_bld.c:671-741 | After the double loop every value that A and B share leads to the join of both children; the reference counts are right |
| `AclBuilder.Builder.MergeSlots` | dpdk/lib/librte_acl/acl_bld.c:677-740 | One slot pair keeps the loop invariant, with and without redirection to a merged child |
| `AclBuilder.Builder.ResolveLeaf` | dpdk/lib/librte_acl/acl_bld.c:540-592 | The match node returned has exactly the join of both: per category the result of the higher priority, A on a tie; existing nodes stay as they are |
| `AclTrie.JoinIsHigher` | dpdk/lib/librte_acl/acl_bld.c:540-592 | Per category the join is one of the two and no lower than either |
| `AclTrie.JoinTwice` | dpdk/lib/librte_acl/acl_bld.c:540-592 | Joining B once more changes nothing, so children that two slots share may be merged again |
| `AclBuilder.Builder.CopyOutside` | dpdk/lib/librte_acl/acl_bld.c:750-759 | C gains exactly the transitions of B outside the intersection |
| `AclBuilder.ContainedInB` | dpdk/lib/librte_acl/acl_bld.c:776-783 | When no reference to A is left, C has exactly the transitions of B, so B may be returned instead |
| `AclBuilder.FinishedJoins` | dpdk/lib/librte_acl/acl_bld.c:743-759 | The node after all steps joins A and B on all inputs of its depth |
| `AclBuilder.FinishedWf` | dpdk/lib/librte_acl/acl_bld.c:743-759 | The node after all steps is well-formed: slots pairwise disjoint with union `values`, children at the next level |
| `AclBuilder.RedirectOk` | dpdk/lib/librte_acl/acl_bld.c:702-738 | Redirecting the common values of a slot pair keeps all loop invariants |
| `AclMerge.AddedNode` | dpdk/lib/librte_acl/acl_bld.c:275-329 | Adding a pointer for new values keeps the node invariant and changes exactly those transitions |
| `AclMerge.MovedOk` | dpdk/lib/librte_acl/acl_bld.c:708-737 | Taking values from one slot and adding them for another child changes exactly those transitions |
| `AclMerge.CompactPtrs` | dpdk/lib/librte_acl/acl_bld.c:506-538 | Compaction only reorders slots, leaves no gap from `min_add` on, and changes nothing when there is none |
| `AclTrie.Frame` | dpdk/lib/librte_acl/acl_bld.c:617-794 | A trie keeps its shape and every lookup when nodes are appended or nodes at levels below that of its root change |
| `AclField.MaskBytesExact` | dpdk/lib/librte_acl/acl_bld.c:880-904 | Byte-wise masked equality is masked equality of the whole value |
| `AclField.MaskLenExact` | dpdk/lib/librte_acl/rte_acl.h:125-126 | The macro yields the prefix mask if and only if the field has at most 4 bytes or the prefix is empty |
| `AclField.PrefixExact` | dpdk/lib/librte_acl/acl_bld.c:948-967 | Equality under a prefix mask is equality of the leading bits |
| `AclField.RangeExactIff` | dpdk/lib/librte_acl/acl_bld.c:826-878 | For all bounds: a range mini-trie accepts exactly lo <= v <= hi if and only if the bounds are boxable, or, when inverted, equal in the top byte or extreme in all lower ones |
| `AclField.SmallRangesBoxable` | dpdk/lib/librte_acl/acl_bld.c:826-878 | All bounds of one and two bytes are boxable |
| `AclField.RangeExact` | dpdk/lib/librte_acl/acl_bld.c:826-878 | For boxable bounds the three boxes are the interval, for every input |
| `AclMiniTrie.GenMask` | dpdk/lib/librte_acl/acl_bld.c:360-379 | The bit set holds exactly the bytes that agree with the value under the mask |
| `AclMiniTrie.GenMaskTrie` | dpdk/lib/librte_acl/acl_bld.c:880-904 | The chain built accepts exactly the inputs that pass the byte-wise mask test |
| `AclMiniTrie.GenRange` | dpdk/lib/librte_acl/acl_bld.c:809-824 | One box is added below the root; other branches are as before |
| `AclMiniTrie.GenRangeTrie` | dpdk/lib/librte_acl/acl_bld.c:826-878 | The mini-trie built accepts exactly the inputs that pass the test of up to three disjoint boxes |
| `AclRules.FieldExact` | dpdk/lib/librte_acl/acl_bld.c:937-984 | The byte-wise test of a field decides whether the field matches the value in the packet |
| `AclRules.GenField` | dpdk/lib/librte_acl/acl_bld.c:937-984 | The mini-trie of a field accepts exactly the inputs that match the field |
| `AclRules.BuildFields` | dpdk/lib/librte_acl/acl_bld.c:930-991 | The chained mini-tries accept exactly the concatenations of accepted fields, for any number of fields |
| `AclRules.RuleResults` | dpdk/lib/librte_acl/acl_bld.c:995-1011 | Result and priority per category of one rule; 0 where it has no category |
| `AclRules.BuildRule` | dpdk/lib/librte_acl/acl_bld.c:925-1011 | The trie of one rule finds that rule on exactly its matching inputs |
| `AclRules.MergedRefines` | dpdk/lib/librte_acl/acl_bld.c:1016-1018 | Joining the trie of another rule gives a trie that finds what the scan with one more rule finds |
| `AclRules.ScanFindsBest` | dpdk/lib/librte_acl/acl_bld.c:995-1018 | A linear scan of the rules finds per category a matching rule of highest priority, and nothing when none matches |
| `AclRules.BuildTrie` | dpdk/lib/librte_acl/acl_bld.c:906-1032 | A trie built without reaching the node limit finds on every input exactly what a linear scan of the rules finds; it is left unfinished exactly when a merge leaves more nodes behind than the limit, and the rules before that one are kept |
| `AclConfig.WildIff` | dpdk/lib/librte_acl/acl_bld.c:1034-1075 | A field has wildness 100 if and only if it matches every value |
| `AclConfig.WildMatchesAll` | dpdk/lib/librte_acl/acl_bld.c:1034-1075 | A field of wildness 100 matches every value |
| `AclConfig.KeyMatchesPacket` | dpdk/lib/librte_acl/rte_acl.h:79-112 | A rule matches a packet exactly when it matches the concatenated bytes of its fields |
| `AclConfig.RuleStats` | dpdk/lib/librte_acl/acl_bld.c:1077-1149 | The fields that stay are those outside always-wild input groups, the first group always staying |
| `AclConfig.MarkGroups` | dpdk/lib/librte_acl/acl_bld.c:1110-1132 | One pass over the fields marks exactly the groups to drop |
| `AclIndex.KeptAligned` | dpdk/lib/librte_acl/rte_acl.h:74-78 | Dropping groups keeps the layout: one byte, then groups of four |
| `AclIndex.BuildIndex` | dpdk/lib/librte_acl/acl_bld.c:1256-1273 | The data indexes are the offsets of the first field of every input group |
| `AclIndex.IndexKey` | dpdk/lib/librte_acl/acl_bld.c:1256-1273 | What the engine reads through the data indexes is the concatenation of the fields |
| `AclIndex.IndexFits` | dpdk/lib/librte_acl/acl_bld.c:1256-1273 | Every read through a data index lies within a packet that holds all fields |
| `AclTries.CompareWildness` | dpdk/lib/librte_acl/acl_bld.c:1151-1164 | The difference in the first field, after field 0, whose wildness differs |
| `AclTries.SplitList` | dpdk/lib/librte_acl/acl_bld.c:1169-1198 | Two parts that concatenate to the list, both shorter when it has two rules or more |
| `AclTries.SortedMerge` | dpdk/lib/librte_acl/acl_bld.c:1203-1229 | An ordered permutation of both ordered lists |
| `AclTries.SortRules` | dpdk/lib/librte_acl/acl_bld.c:1235-1254 | An ordered permutation of the rules |
| `AclTries.BuildOne` | dpdk/lib/librte_acl/acl_bld.c:1275-1301 | Sorting and reduction keep the rules and the layout; the trie finds what a scan of its rules finds unless it got too big |
| `AclTries.BuildTries` | dpdk/lib/librte_acl/acl_bld.c:1303-1376 | On success the tries hold a partition of the rules, each finding what a scan of its own finds, on every input; rules are split where a merge exceeds the limit and nowhere else, and it fails exactly when eight tries do not suffice |
| `AclWord.ColumnIs` | dpdk/lib/librte_acl/acl_run_scalar.c:109-131 | The word-parallel signed comparison yields the number of the first boundary not below the input, for all boundaries and inputs |
| `AclWord.DfaTarget` | dpdk/lib/librte_acl/acl_run_scalar.c:103-136 | The transition on a DFA word reads the entry of the group the input is shared into |
| `AclWord.NoMatchTarget` | dpdk/lib/librte_acl/acl_run_scalar.c:103-136 | The no-match word never leaves the first entries of the table |
| `AclNodes.FillDfa` | dpdk/lib/librte_acl/acl_gen.c:140-177 | The 256-entry array is the node's transition function |
| `AclNodes.CountGroups64` | dpdk/lib/librte_acl/acl_gen.c:118-138 | Groups get the same number exactly when they are equal, numbers have no gap, and no group is stored after itself |
| `AclNodes.SharedEntries` | dpdk/lib/librte_acl/acl_gen.c:88-103 | Inputs stored at the same place have the same transition |
| `AclRuns.CountGroups` | dpdk/lib/librte_acl/acl_gen.c:180-219 | The number of groups of neighbours, from the most negative byte up |
| `AclRuns.CountFanout` | dpdk/lib/librte_acl/acl_gen.c:224-243 | The fanout is the number of runs of equal transitions, whichever distinct targets the children get |
| `AclRuns.RunsCounted` | dpdk/lib/librte_acl/acl_gen.c:224-243 | The sum of group counts of all slots is the number of runs |
| `AclRuns.FillRanges` | dpdk/lib/librte_acl/acl_gen.c:305-352 | One entry per run, and the last byte of each run but the last |
| `AclRuns.ColumnEntry` | dpdk/lib/librte_acl/acl_gen.c:305-352 | The entry selected by counting boundaries below the input is the input's transition |
| `AclRuns.RangeTarget` | dpdk/lib/librte_acl/acl_run_scalar.c:109-131 | On a range node the transition reads the entry of an uncompressed 256-entry table, for every input byte |
| `AclLayout.Classify` | dpdk/lib/librte_acl/acl_gen.c:248-303 | The encoding can hold the node's transitions whatever its children's addresses become; it takes 256 words for a root, one word per run for up to five runs, and else 64 for each different group of transitions |
| `AclLayout.DifferentCounted` | dpdk/lib/librte_acl/acl_gen.c:118-138 | The number of groups stored is the number of different ones |
| `AclLayout.Room` | dpdk/lib/librte_acl/acl_gen.c:446-471 | Counted sizes suffice: there is room for every counted node not yet placed |
| `AclLayout.DistinctWords` | dpdk/lib/librte_acl/acl_gen.c:359-444 | Placed nodes have different transition words |
| `AclLayout.Storage` | dpdk/lib/librte_acl/acl_gen.c:446-471 | The storage of a node lies inside the area of its kind and above the first area |
| `AclLayout.StorageApart` | dpdk/lib/librte_acl/acl_gen.c:359-444 | Storage of different nodes is disjoint |
| `AclStore.FillGroups` | dpdk/lib/librte_acl/acl_gen.c:105-116 | Every transition is found where group sharing puts it; nothing outside the node's storage is written |
| `AclStore.Store` | dpdk/lib/librte_acl/acl_gen.c:305-352 | For every encoding, the storage the word leads to holds the node's transitions; nothing outside is written |
| `AclCount.Counter.CountNode` | dpdk/lib/librte_acl/acl_gen.c:248-303 | Everything below a counted node is counted, once, with the size it takes and totals that match, and nothing that it does not lead to |
| `AclGen.Generator.GenNode` | dpdk/lib/librte_acl/acl_gen.c:359-444 | The node and everything below it is placed and generated; what was generated before stays so |
| `AclGen.Generator.Allocate` | dpdk/lib/librte_acl/acl_gen.c:372-396 | Reserving and clearing a node's storage keeps every other node generated |
| `AclGen.Generator.AllocateMatch` | dpdk/lib/librte_acl/acl_gen.c:397-406 | Storing match results keeps every other node generated |
| `AclGen.Generator.Resolve` | dpdk/lib/librte_acl/acl_gen.c:423-443 | With all children placed, storing the transitions completes the node |
| `AclTable.Areas` | dpdk/lib/librte_acl/acl_gen.c:446-471 | The areas are sized for all counted nodes, the first behind the no-match area |
| `AclTable.Generate` | dpdk/lib/librte_acl/acl_gen.c:476-561 | Succeeds exactly when what the structure takes is within both limits; then the table represents every trie, exactly the nodes the tries lead to are placed, and every area ends where the next begins: the sizes counted are the sizes written |
| `AclTable.CountedNeed` | dpdk/lib/librte_acl/acl_gen.c:446-508 | The bytes counted are those that the nodes, the matches, the data indexes and the fixed parts take, rounded up to pairs of words and cache lines |
| `AclTable.NeedsOnce` | dpdk/lib/librte_acl/acl_gen.c:446-508 | The nodes and the roots alone determine the bytes |
| `AclTable.AllPlacedNow` | dpdk/lib/librte_acl/acl_gen.c:446-561 | When all roots are placed, what is placed is what was counted, and every area is full |
| `AclTable.RunFollows` | dpdk/lib/librte_acl/acl_run_scalar.c:103-136 | Byte by byte, the table walk from a node's word equals the trie walk, for all four encodings, and every access is in bounds |
| `AclTable.NoMatchRun` | dpdk/lib/librte_acl/acl_gen.c:523-535 | No match is absorbing on every input |
| `AclTable.Outcome` | dpdk/lib/librte_acl/acl_run_scalar.c:103-136 | A match word is met at the last level, and earlier only when nothing matches; it names the trie's answer |
| `AclRun.Resolve` | dpdk/lib/librte_acl/acl_run_scalar.c:43-95 | First results are taken; later ones replace those whose priority is not higher |
| `AclRun.FreeCompletion` | dpdk/lib/librte_acl/acl_run.h:112-131 | Whenever a packet is about to start some completion record is free |
| `AclRunSteps.StartKeeps` | dpdk/lib/librte_acl/acl_run.h:154-199 | Starting the next trie keeps the scheduler invariant: every started pair of packet and trie is in one slot or resolved |
| `AclRunSteps.FinishKeeps` | dpdk/lib/librte_acl/acl_run.h:229-261 | Resolving a finished traversal keeps the invariant: each record knows the best of the resolved tries |
| `AclRunSteps.MoveKeeps` | dpdk/lib/librte_acl/acl_run_scalar.c:168-190 | Four more bytes in every slot keep the invariant |
| `AclRunSteps.Finished` | dpdk/lib/librte_acl/acl_run_scalar.c:138-192 | With no traversal left every packet has, per category, the result of a best trie |
| `AclEngine.IdleWithin` | dpdk/lib/librte_acl/acl_run.h:154-199 | While a traversal is in progress an idle slot stays inside the 256-entry idle array and on the idle word |
| `AclEngine.Engine.constructor` | dpdk/lib/librte_acl/acl_run.h:201-217 | The initial flow state satisfies the scheduler invariant |
| `AclEngine.Engine.AllocCompletion` | dpdk/lib/librte_acl/acl_run.h:112-131 | A free completion record is always found |
| `AclEngine.Engine.StartNext` | dpdk/lib/librte_acl/acl_run.h:154-199 | The slot gets the next pair or becomes idle; no traversal is lost or doubled |
| `AclEngine.Engine.MatchCheck` | dpdk/lib/librte_acl/acl_run.h:229-261 | A slot at a match is resolved and refilled, exactly one traversal less is left |
| `AclEngine.Engine.Classify` | dpdk/lib/librte_acl/acl_run_scalar.c:138-192 | For any number of packets, tries and slots the interleaved engine terminates with every trie resolved exactly once for every packet, and every row is the fold of the answers in that order |
| `AclOrder.OrdersFinished` | dpdk/lib/librte_acl/acl_run_scalar.c:138-192 | With no traversal left, every packet has had every trie resolved once, and its row is the fold in that order |
| `AclOrder.FinishOrders` | dpdk/lib/librte_acl/acl_run.h:229-261 | Resolving one more trie keeps rows and priorities the fold over the order so far |
| `AclOrder.FoldIsLastBest` | dpdk/lib/librte_acl/acl_run_scalar.c:43-95 | The fold takes the result of the last of the tries with the highest priority |
| `AclClassify.TraceIsTraced` | dpdk/lib/librte_acl/acl_run_scalar.c:138-192 | The traversal of a packet through a trie, four bytes at a time, ends with what the trie finds for the packet's key |
| `DistSteps.StepKeeps` | dpdk/lib/librte_distributor/rte_distributor.c:285-386 | Every step of a worker or of the distributor keeps the invariant, nested calls included |
| `DistSteps.RunKeeps` | dpdk/lib/librte_distributor/rte_distributor.c:285-386 | The invariant holds in every state of every interleaving |
| `DistSteps.ShutdownKeeps` | dpdk/lib/librte_distributor/rte_distributor.c:206-240 | Redistributing the backlog of a worker that returned keeps the invariant |
| `DistSteps.LeaveKeeps` | dpdk/lib/librte_distributor/rte_distributor.c:206-240 | Returning from the nested call and dropping the passed-on backlog keeps the invariant |
| `DistSteps.FetchQueued` | dpdk/lib/librte_distributor/rte_distributor.c:304-343 | A packet of a flow in flight goes to the end of its worker's backlog; the invariant is kept |
| `DistSteps.FetchPending` | dpdk/lib/librte_distributor/rte_distributor.c:304-343 | A packet of a flow that nobody has becomes pending; the invariant is kept |
| `DistSteps.GiveQueuedKeeps` | dpdk/lib/librte_distributor/rte_distributor.c:345-351 | Handing out the oldest packet of a backlog keeps the invariant |
| `DistSteps.GiveNextKeeps` | dpdk/lib/librte_distributor/rte_distributor.c:345-358 | Handing out the pending packet and taking over its flow keeps the invariant |
| `DistSteps.WorkerKeeps` | dpdk/lib/librte_distributor/rte_distributor.c:125-170 | A worker's request, or its return with or without a request outstanding, keeps the invariant unless that request is being answered |
| `DistTheorems.FlowAtomicity` | dpdk/lib/librte_distributor/rte_distributor.c:285-386 | In every state of every interleaving no two workers hold packets of the same flow |
| `DistTheorems.BacklogOfFlow` | dpdk/lib/librte_distributor/rte_distributor.c:285-386 | What waits behind a worker is of the flow the worker holds, at most 8 packets |
| `DistTheorems.FlowOrder` | dpdk/lib/librte_distributor/rte_distributor.c:300-381 | Packets of a flow are handed out in the order of submission, retries on a full backlog and shutdowns included |
| `DistTheorems.ExactlyOnce` | dpdk/lib/librte_distributor/rte_distributor.c:285-386 | Every submission of a packet is in exactly one place: finished, held, in its flow's backlog, or not yet placed |
| `DistProgress.RoundRobin` | dpdk/lib/librte_distributor/rte_distributor.c:300-368 | In every interleaving the turns of a call read the workers one after the other, in a circle, nested calls in between included |
| `DistProgress.FirstTurn` | dpdk/lib/librte_distributor/rte_distributor.c:285-303 | A call begins with the first worker |
| `DistProgress.PendingIsPlaced` | dpdk/lib/librte_distributor/rte_distributor.c:300-368 | With a packet pending and a request posted by a worker, a packet is handed out before the call has gone once around and begins the turn after that worker's |
| `DistProgress.AnsweredInTurn` | dpdk/lib/librte_distributor/rte_distributor.c:345-362 | Within one round a worker with a backlog that asks is given the oldest packet of it, and one that returns is shut down |
| `DistProgress.TurnTakes` | dpdk/lib/librte_distributor/rte_distributor.c:306-343 | A turn without a pending packet takes the next one: to the backlog of the worker with its flow, unless that has eight packets, or as pending if no worker has the flow |
| `DistProgress.ClosingBegins` | dpdk/lib/librte_distributor/rte_distributor.c:300-372 | A call with packets goes on until all of them are placed; then its closing loop begins with the first worker |
| `DistProgress.ClosingAnswers` | dpdk/lib/librte_distributor/rte_distributor.c:370-381 | A call does not return before every worker with a backlog that asks has been given the oldest packet of it |
| `DistMisuse.AskingAgainDuplicates` | dpdk/lib/librte_distributor/rte_distributor.c:237-238 | A run from the start that keeps the conditions up to a request after the last return; two packets are submitted once each and one of them is handed out twice |
| `DistMisuse.ReturnIsLost` | dpdk/lib/librte_distributor/rte_distributor.c:246-282 | A run from the start in which a worker returns while its request is being answered, and the return is overwritten |
| `DistTheorems.FlushedMeansDone` | dpdk/lib/librte_distributor/rte_distributor.c:410-434 | Between calls, nothing outstanding means no worker holds a packet, all backlogs are empty and every submission is finished |
| `DistTheorems.FlushProgress` | dpdk/lib/librte_distributor/rte_distributor.c:410-434 | In every interleaving a call without packets that begins with a request posted by every worker takes one off what is outstanding for each worker that has a flow or a backlog, so strictly less is left unless nothing was |
| `DistTheorems.PassingRun` | dpdk/lib/librte_distributor/rte_distributor.c:246-282 | In every state of such a call the private data are on the way to those of one pass over all workers, and at the end they are those |
| `DistRing.Backlog.Add` | dpdk/lib/librte_distributor/rte_distributor.c:175-184 | Refused exactly when full; otherwise the packet is last in the queue |
| `DistRing.Backlog.Pop` | dpdk/lib/librte_distributor/rte_distributor.c:187-192 | The oldest packet is taken, wrap-around of the 32-bit counter included |
| `DistRing.ReturnedPkts.Store` | dpdk/lib/librte_distributor/rte_distributor.c:195-204 | The ring keeps the newest 127 returned packets in order; null is not kept |
| `DistRing.ReturnedPkts.Take` | dpdk/lib/librte_distributor/rte_distributor.c:389-406 | The oldest returned packets, as many as asked for or there are |
| `DistRing.Scan` | dpdk/lib/librte_distributor/rte_distributor.c:315-338 | The bit scan finds the worker that has the flow, for up to 32 workers |
| `DistRing.ScanExactIff` | dpdk/lib/librte_distributor/rte_distributor.c:329-334 | For n workers, in every state in which the bit mask mirrors the flows and workers without one have tag 0: the bit scan finds the worker that has the flow, if and only if n is at most 32 |
| `DistRing.AlwaysCleared` | dpdk/lib/librte_distributor/rte_distributor.c:206-282 | In every state of every run a worker without a flow has tag 0, on which the scan relies |
| `JsonRoundTrip.RoundTrip` | twister/jsonmodule/cJSON.c:517-547 | Parsing the printed text of any printable tree, formatted or compact, gives the tree, consumes the whole text and stays within it |
| `JsonRoundTrip.ValueRoundTrip` | twister/jsonmodule/cJSON.c:575-1100 | The same for a value at any depth, whatever follows it |
| `JsonRoundTrip.StringRoundTrip` | twister/jsonmodule/cJSON.c:290-493 | Every string of bytes reads back from its escaped form |
| `JsonRoundTrip.NumberRoundTrip` | twister/jsonmodule/cJSON.c:110-147 | Every 32-bit integer reads back from its decimal form |
| `JsonLayout.PrintLaidOut` | twister/jsonmodule/cJSON.c:757-1098 | Printed text, formatted or compact, is laid out: no blank outside strings when compact; formatted, a space after the comma of an array, a tab after a colon, and every member on a line of its own with a tab for each bracket around it |
| `JsonLayout.ValueLaid` | twister/jsonmodule/cJSON.c:617-689 | The same for a value within any brackets, whatever follows it |
| `JsonLayout.EscapesAre` | twister/jsonmodule/cJSON.c:455-490 | How each character of a string is printed: by itself, with one of seven letters, or with two hexadecimal digits |
| `JsonTexts.TextReads` | twister/jsonmodule/cJSON.c:517-547 | Every text of RFC 8259, with any white space, escapes and number forms, parses to the value the grammar gives it, is consumed whole, and keeps the parser inside it |
| `JsonTexts.DocReads` | twister/jsonmodule/cJSON.c:575-614 | The same for a value, whatever follows it |
| `JsonTexts.ArrayRefused` | twister/jsonmodule/cJSON.c:692-730 | An array whose elements are followed by anything but a comma or its bracket is refused, the end of the text included |
| `JsonTexts.ObjectRefused` | twister/jsonmodule/cJSON.c:855-913 | The same for the members of an object |
| `JsonTexts.MemberRefused` | twister/jsonmodule/cJSON.c:872-881 | A name that is no string, or that no colon follows, is refused |
| `JsonTexts.TrailingComma` | twister/jsonmodule/cJSON.c:715-730 | A comma before the closing bracket is refused |
| `JsonTexts.NoValue` | twister/jsonmodule/cJSON.c:575-614 | What begins like no value is refused |
| `JsonGrammar.NumeralReads` | twister/jsonmodule/cJSON.c:110-147 | Every number of the grammar, with fraction and exponent, reads as what it denotes |
| `JsonGrammar.StringReads` | twister/jsonmodule/cJSON.c:290-393 | Every string of plain characters and escapes reads as the bytes they stand for, and is safe |
| `JsonUnicode.Utf8Decodes` | twister/jsonmodule/cJSON.c:355-378 | The bytes written for a code point decode to it, one to four of them by the ranges of UTF-8 |
| `JsonUnicode.EscapeReads` | twister/jsonmodule/cJSON.c:337-379 | An escape, a surrogate pair from 0x10000 up, with digits in either case, is read as its code point |
| `JsonUnicode.UnicodeString` | twister/jsonmodule/cJSON.c:290-393 | A string of escapes decodes to the characters they stand for |
| `JsonUnicode.NothingWritten` | twister/jsonmodule/cJSON.c:341-352 | Zero, a low surrogate, and a high one without a low one write nothing |
| `JsonMinify.MinifyFormatted` | twister/jsonmodule/cJSON.c:1462-1499 | The formatted print of any tree is closed, and minifying it gives exactly its compact print |
| `JsonMinify.ValueMinified` | twister/jsonmodule/cJSON.c:1462-1499 | The same for a value at any depth, whatever follows it |
| `JsonMinify.Minify` | twister/jsonmodule/cJSON.c:1462-1499 | In place, the reader stays in the text exactly when every literal and block comment is closed; then the array holds the minified text and a terminator, and the writer never overtakes the reader |
| `JsonMinify.CopyLiteral` | twister/jsonmodule/cJSON.c:1484-1494 | A closed string literal is copied unchanged, escaped quotes included; one that is not closed takes the reader out of the text |
| `JsonMinify.NotClosed` | twister/jsonmodule/cJSON.c:1478-1494 | A quote, with a backslash or an escaped quote behind it, and the start of a comment: texts that are not closed |
| `JsonMinify.BlankIs` | twister/jsonmodule/cJSON.c:1467-1474 | Exactly space, tab, carriage return and line feed are dropped as white space |
| `JsonMinify.LineCommentDropped` | twister/jsonmodule/cJSON.c:1475-1477 | Two slashes and the rest of the line are dropped |
| `JsonMinify.BlockCommentDropped` | twister/jsonmodule/cJSON.c:1478-1483 | A comment is dropped up to the first star with a slash behind it |
| `JsonMinify.ShortestComment` | twister/jsonmodule/cJSON.c:1478-1483 | That may be the star it begins with |
| `JsonPow2.Pow2GtIs` | twister/jsonmodule/cJSON.c:149-158 | For every positive `int` the smallest power of two not below it; that is an `int` if and only if the argument is at most 2^30 |
| `JsonPow2.SmearedOnes` | twister/jsonmodule/cJSON.c:151-156 | The shifts and ors set all bits below the highest one |
| `JsonBuffer.PrintBuffer.Ensure` | twister/jsonmodule/cJSON.c:167-191 | Room for the characters needed; a buffer that is too small is replaced by one whose size is the next power of two; what has been printed is kept |
| `JsonBuffer.PrintBuffer.Update` | twister/jsonmodule/cJSON.c:193-200 | The offset moves to the terminator |
| `JsonBuffer.PrintBuffer.PutString` | twister/jsonmodule/cJSON.c:396-493 | The string is printed quoted and escaped, inside the room ensured |
| `JsonBuffer.PrintValue` | twister/jsonmodule/cJSON.c:617-689 | The buffer holds the printed value behind what was there |
| `JsonBuffer.PrintArray` | twister/jsonmodule/cJSON.c:757-791 | The same for arrays, laid out as `JsonLayout` says |
| `JsonBuffer.PrintObject` | twister/jsonmodule/cJSON.c:948-1010 | The same for objects |
| `JsonBuffer.PrintBuffered` | twister/jsonmodule/cJSON.c:564-572 | From any initial size the buffer ends up with the text that printing without a buffer gives, every write inside it |
| `JsonAlloc.ComposeArray` | twister/jsonmodule/cJSON.c:792-850 | The array printer writes its pieces, joined as printed arrays are, within the length it computed |
| `JsonAlloc.ComposeObject` | twister/jsonmodule/cJSON.c:1011-1098 | The object printer writes its lines within the length it computed |
| `JsonAlloc.JoinedFits` | twister/jsonmodule/cJSON.c:800-817 | The computed length of an array bounds what is written |
| `JsonAlloc.LinesFit` | twister/jsonmodule/cJSON.c:1028-1044 | The computed length of an object bounds what is written |
| `JsonAlloc.PrintAlloc` | twister/jsonmodule/cJSON.c:617-689 | Printing without a buffer gives the printed text and a terminator |
| `JsonParser.ParseText` | twister/jsonmodule/cJSON.c:517-547 | On every text the cursor-based parser terminates; it keeps to the text and its buffers exactly when every string it comes to is safe, and then agrees with the parsing functions, failures included |
| `JsonParser.ValueAt` | twister/jsonmodule/cJSON.c:575-614 | The same for one value |
| `JsonParser.ArrayAt` | twister/jsonmodule/cJSON.c:692-730 | The same for arrays |
| `JsonParser.ObjectAt` | twister/jsonmodule/cJSON.c:855-913 | The same for objects |
| `JsonParser.StringAt` | twister/jsonmodule/cJSON.c:290-393 | Both passes stay in the text and the second in the buffer sized by the first exactly when the string is safe; then the result is the decoded string, escapes and surrogate pairs included |
| `JsonSafe.SafeIff` | twister/jsonmodule/cJSON.c:303-393 | What stands between two quotes is safe, whatever follows, if and only if the second pass over it alone stays in it, that is, no `\u` escape is cut off |
| `JsonSafe.Fits` | twister/jsonmodule/cJSON.c:303-393 | Then what the second pass writes is no longer than what the first has counted |
| `JsonSafe.StaysThere` | twister/jsonmodule/cJSON.c:303-393 | Then the second pass does the same whatever follows, and ends at the closing quote or before |
| `JsonSafe.Crosses` | twister/jsonmodule/cJSON.c:336-352 | Otherwise it steps over the quote and writes what follows, without bound |
| `JsonSafe.CutOffOverflows` | twister/jsonmodule/cJSON.c:336-352 | A string `\u`, a comma and a string of eight characters: seven bytes are written to a buffer for one |
| `JsonSafe.BareBackslash` | twister/jsonmodule/cJSON.c:303-305 | A string that ends in a backslash takes both passes out of the text |
| `JsonParser.NumberAt` | twister/jsonmodule/cJSON.c:110-147 | The same for numbers, over exact reals |
| `JsonParser.SkipAt` | twister/jsonmodule/cJSON.c:509-514 | The cursor moves to the first visible character or the terminator |
| `CmdNum.AddToRes` | dpdk/lib/librte_cmdline/cmdline_parse_num.c:110-120 | Rejects exactly the results that do not fit 64 bits |
| `CmdNum.OverflowTest` | dpdk/lib/librte_cmdline/cmdline_parse_num.c:110-120 | The division test is the overflow condition |
| `CmdNum.Next` | dpdk/lib/librte_cmdline/cmdline_parse_num.c:180-298 | After each character the automaton knows form and value of what it read, or no token with that beginning is a number |
| `CmdNum.AtEnd` | dpdk/lib/librte_cmdline/cmdline_parse_num.c:310-377 | A final state says whether the token is a number and which |
| `CmdNum.ParseNum` | dpdk/lib/librte_cmdline/cmdline_parse_num.c:153-378 | A token is accepted exactly when it is at most 127 characters of the decimal, negative, octal, hexadecimal or binary grammar and its value is one of the type's, that is, of its 8 to 64 bits with or without a sign; value and length are returned |
| `CmdNum.FitsIff` | dpdk/lib/librte_cmdline/cmdline_parse_num.c:310-377 | The limits tested are those of the number of bits |
| `CmdNum.DigitIs` | dpdk/lib/librte_cmdline/cmdline_parse_num.c:253-268 | Digits are the characters of 0123456789abcdef in either case, by their places |
| `CmdNum.EndsTokenIs` | dpdk/lib/librte_cmdline/cmdline_parse.c:87-119 | Exactly the end of the text, a comment sign, blanks and line ends end a token |
| `CmdNumText.WrittenIsAccepted` | dpdk/lib/librte_cmdline/cmdline_parse_num.c:153-378 | Every value of every type, written in any base and followed by the end of a token, is accepted and denotes the value |
| `CmdNumText.WrittenDenotes` | dpdk/lib/librte_cmdline/cmdline_parse_num.c:180-298 | A number written in any base denotes itself |
| `CmdNumText.AcceptedInType` | dpdk/lib/librte_cmdline/cmdline_parse_num.c:310-377 | Whatever is accepted is a value of the type, and a sign is taken by signed types only |
| `CmdCirbuf.Cirbuf.AddBufHead` | dpdk/lib/librte_cmdline/cmdline_cirbuf.c:83-110 | A bulk add at the head is refused exactly when empty or too long, and otherwise prepends, wrap-around included |
| `CmdCirbuf.Cirbuf.AddBufTail` | dpdk/lib/librte_cmdline/cmdline_cirbuf.c:114-142 | A bulk add at the tail is refused exactly when empty or too long, and otherwise appends |
| `CmdCirbuf.Cirbuf.AddHeadSafe` | dpdk/lib/librte_cmdline/cmdline_cirbuf.c:157-165 | Refused exactly when full; otherwise the element is first |
| `CmdCirbuf.Cirbuf.AddTailSafe` | dpdk/lib/librte_cmdline/cmdline_cirbuf.c:186-194 | Refused exactly when full; otherwise the element is last |
| `CmdCirbuf.Cirbuf.DelHead` | dpdk/lib/librte_cmdline/cmdline_cirbuf.c:321-345 | The first element goes |
| `CmdCirbuf.Cirbuf.DelTail` | dpdk/lib/librte_cmdline/cmdline_cirbuf.c:349-373 | The last element goes |
| `CmdCirbuf.Cirbuf.DelBufHead` | dpdk/lib/librte_cmdline/cmdline_cirbuf.c:281-297 | Refused exactly when nothing or too much is asked; otherwise the first elements go |
| `CmdCirbuf.Cirbuf.DelBufTail` | dpdk/lib/librte_cmdline/cmdline_cirbuf.c:301-317 | Refused exactly when nothing or too much is asked; otherwise the last elements go |
| `CmdCirbuf.Cirbuf.ShiftLeft` | dpdk/lib/librte_cmdline/cmdline_cirbuf.c:203-218 | The data moves one place to the left, also when the buffer is full |
| `CmdCirbuf.Cirbuf.ShiftRight` | dpdk/lib/librte_cmdline/cmdline_cirbuf.c:220-235 | The data moves one place to the right, also when the buffer is full |
| `CmdCirbuf.Cirbuf.AlignLeft` | dpdk/lib/librte_cmdline/cmdline_cirbuf.c:238-256 | Terminates with the same queue starting at 0, so that the storage begins with it |
| `CmdCirbuf.Cirbuf.AlignRight` | dpdk/lib/librte_cmdline/cmdline_cirbuf.c:259-277 | The queue is kept; the data ends at the last place if and only if it started in the right half or has at most one element, and otherwise starts there |
| `CmdCirbuf.Cirbuf.GetBufHead` | dpdk/lib/librte_cmdline/cmdline_cirbuf.c:377-411 | The first elements, as many as asked for or there are |
| `CmdCirbuf.Cirbuf.GetBufTail` | dpdk/lib/librte_cmdline/cmdline_cirbuf.c:415-450 | The last elements, and no place behind them, when they do not wrap, fit the front part or are all; in every other case one place of the result is never written and a place behind it is |
| `CmdRdline.Rdline.Press` | dpdk/lib/librte_cmdline/cmdline_rdline.c:224-543 | What each key does to text, caret, kill buffer and history, up and down included; nothing when the editor is not running |
| `CmdRdline.Rdline.PressAll` | dpdk/lib/librte_cmdline/cmdline_rdline.c:224-543 | Over every key sequence text stays within 512 characters and history is a list of whole terminated lines; caret keys alone change no text |
| `CmdRdline.Rdline.WordLeft` | dpdk/lib/librte_cmdline/cmdline_rdline.c:270-286 | The caret moves to the start of the word; the text is the same |
| `CmdRdline.WordStartIs` | dpdk/lib/librte_cmdline/cmdline_rdline.c:270-286 | The place reached to the left is the start of the last word, behind which only spaces and tabs stand |
| `CmdRdline.Rdline.WordRight` | dpdk/lib/librte_cmdline/cmdline_rdline.c:289-304 | The caret moves behind the word; the text is the same |
| `CmdRdline.WordEndIs` | dpdk/lib/librte_cmdline/cmdline_rdline.c:289-304 | The place reached to the right is the end of the first word, before which only spaces and tabs stand |
| `CmdRdline.Rdline.Kill` | dpdk/lib/librte_cmdline/cmdline_rdline.c:377-382 | What is right of the caret goes to the kill buffer |
| `CmdRdline.Rdline.Paste` | dpdk/lib/librte_cmdline/cmdline_rdline.c:385-395 | As much of the kill buffer as fits goes left of the caret |
| `CmdRdline.Rdline.KillThenYank` | dpdk/lib/librte_cmdline/cmdline_rdline.c:377-395 | Killing and yanking restores the text |
| `CmdRdline.Rdline.RemoveOld` | dpdk/lib/librte_cmdline/cmdline_rdline.c:548-559 | Exactly the oldest line goes |
| `CmdRdline.Rdline.RemoveNewest` | dpdk/lib/librte_cmdline/cmdline_rdline.c:561-579 | Exactly the newest line goes |
| `CmdRdline.Rdline.Size` | dpdk/lib/librte_cmdline/cmdline_rdline.c:581-592 | The number of lines |
| `CmdRdline.Rdline.GetItem` | dpdk/lib/librte_cmdline/cmdline_rdline.c:594-618 | Item i is the i-th newest line, found exactly when there are more than i |
| `CmdRdline.Rdline.AddHistory` | dpdk/lib/librte_cmdline/cmdline_rdline.c:620-647 | The line becomes the newest; only oldest lines go, and no more than needed |
| `CmdRdline.Rdline.Up` | dpdk/lib/librte_cmdline/cmdline_rdline.c:481-501 | The text is saved once as the newest line; then older lines are shown one by one |
| `CmdRdline.Rdline.Down` | dpdk/lib/librte_cmdline/cmdline_rdline.c:504-518 | Newer lines are shown, down to the saved text |
| `CmdRdline.Rdline.Return` | dpdk/lib/librte_cmdline/cmdline_rdline.c:465-478 | The text is delivered with a newline, and the line saved for browsing goes; the length handed over is that of text and terminator if and only if the caret is at the end |
| `CmdRdline.Rdline.Browse` | dpdk/lib/librte_cmdline/cmdline_rdline.c:465-518 | Any sequence of ups and downs followed by return leaves the newest lines that fit beside the text as it was; that is the whole history if and only if there was no up or there was room for the text |
| `CmdRdline.KeptAll` | dpdk/lib/librte_cmdline/cmdline_rdline.c:620-647 | No line goes if and only if history and text fit together |

## Left out

- SSE, AVX2 and NEON classification: the scalar engine carries the meaning; it is modelled for any number of slots instead of two, and the resolve loop is not unrolled four times.
- ACL memory: the `tb_mem` pool, node free lists, reference counts, `min_add` caching across merges and the duplicate links `next` and `prev`; nodes are appended to an arena and allocation succeeds.
- ACL bit sets are sets of bytes, and the linked list of rules is a sequence.
- ACL contexts, `rte_acl_add_rules` with its checks, tail queues, logging and CPU dispatch.
- BuildTrie: how many nodes a merge released is a parameter (`freed`); where a rule set is split is exact in terms of it and of the nodes added, and the claims hold for every value of it.
- Wildness: whole percent of exact fractions instead of `double` arithmetic.
- Build: 8-byte fields, which do not fit the groups of four bytes that rte_acl.h:74-78 asks for, ranges of 4 bytes that are not boxable, and inverted ranges, whose mini-tries have pointers without values, are outside the end-to-end claim; `MaskLenExact` and `RangeExactIff` say exactly which fields a mini-trie is right for.
- GenRangeTrie: inverted bounds.
- Generate: the table and the match results are two arrays instead of one block, and no more than 4 GiB can be allocated (`available`), so that indexes fit their 29 bits.
- Classify: results are one row per packet instead of one flat buffer, and a number of categories above 16 is excluded, as the header asks of callers.
- Distributor memory ordering: every read or write of a shared word is one atomic step.
- Distributor returns: the ring of returned packets is proved as a data structure and is not part of the state machine, since nested calls write back their own copy of its indexes.
- PendingIsPlaced: counts turns of one call; turns stop while a nested call waits for workers of its own, and that workers come to ask is not modelled.
- FlushProgress: calls that begin with a request posted by every worker; that workers come to post requests is not modelled.
- `rte_distributor_create` and the memory zone it reserves.
- cJSON numbers that are not 32-bit integers are parsed over exact reals and not printed; `%f`, `%e` and rounding of `double` are not modelled.
- cJSON past the end of a text or a buffer: the model says when it goes there and stops there.
- cJSON allocation failures, hooks, references, and the editing and duplicating of trees; children are sequences instead of linked lists.
- Ensure: sizes are unbounded; above 2^30 the code's size is no `int` (`Pow2GtIs`).
- Line editor output: terminal escapes, the prompt and echo; the vt100 decoder delivers keys, and the validation and completion callbacks are parameters.
- Rdline: its two halves, kill buffer and history are queues with the behaviour that `CmdCirbuf` proves, without their placement in the arrays.
- `rdline_stop`, `rdline_restart`, `rdline_quit`, and `check_res_size` and the help text of number tokens.
- The rest of the tree: devices, event loop, ARP, timers, applications and scripts, which are mostly calls into DPDK.
