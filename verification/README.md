# Verified model of the ACGC session garbage collector

ACGC keeps, for every chat session, a tree of state nodes, one per event. It scores the nodes, archives
those of little value, folds wide branches into compressed nodes, keeps two vector indices in step with
the node statuses, and compiles a prompt that fits a token budget. One worker per session does the
writing; idle sessions are evicted and restored from snapshots.

This project models that core in Dafny and proves what it keeps: over every well-formed tree, over every
run of a session, and over every interleaving of the session manager.

`dafny verify dfyconfig.toml` checks everything.

## How the model is laid out

Code that changes state is a class or a method here: `StateTree.Tree`, `VectorIndex.HNSWIndex`,
`SessionAtWork.SessionState`, and methods with the source's loops. Each such method is tied by its
`ensures` to a function on values (`Added`, `Replaced`, `Rescored`, `Result`, `Inserted`, `Process`,
`Choose`, `Compiled`), and the laws are lemmas about those functions. What a function decides is also
said in other terms than its own: which nodes are swept by what they carry and score (`SweepLaws`), when a
run starts by the limits (`TriggerLaws`), what a score is by its weighted parts (`ScoreLaws`), who is
rendered by who scores higher (`PromptRanking`).

| module | part of the program |
|---|---|
| `Collections`, `Text`, `Sorting` | finite collections, the string operations facts need, sorting with and without ties |
| `Domain` | nodes, events, node ids and how ids print |
| `CappedMerge`, `Facts`, `Entities` | capped case-insensitive merging, decisions of assistant replies, the `ENTITIES:` line |
| `StateTree`, `NodeLaws` | the tree, its well-formedness, its depth; what a fresh node takes from its event |
| `VectorMath`, `Scoring`, `ScoreLaws` | cosine similarity over the reals, retention scores, what they are made of |
| `GarbageCollector`, `Compaction`, `RunLaws`, `TwoRuns`, `FreedTokens`, `SweepLaws` | mark, sweep and compact; the compaction loop in closed form; laws of one run; laws of two runs; what the token count reports; which nodes are swept and which are folded |
| `CollectorAtWork`, `TriggerLaws`, `CompressorLaws` | the triggers and the loops themselves; when a run starts; what the built-in compressor keeps |
| `GrownTrees` | trees that sessions really grow |
| `VectorIndex` | the tombstoned index |
| `Worker`, `SessionRuns`, `EventLaws`, `SessionAtWork` | one event, whole runs, what events do to scores and limits, and the session object |
| `Protocol`, `ProtocolRuns` | the session manager as a transition system, and its runs |
| `Selection`, `PromptCompiler`, `PromptLaws`, `PromptRanking`, `PromptContents`, `PromptBudget` | greedy selection, compiling, what compiled prompts promise, who comes first, what can be read in them, when they meet the budget |
| `SemanticCompile`, `SessionPrompts`, `PromptCompilation` | semantic re-blending, prompts of real sessions |

Three conventions recur. Go's map iteration order is an enumeration of the map's keys: loops pick any
remaining key, and laws hold for every order. What the outside world decides (embeddings, the compressor,
the search of the graph library, the ties of an unstable sort) is a parameter or any value with the
stated property. Scores and vectors are real numbers, `sqrt` is any function with the property of a
square root, and the recency decay is any function.

## Where the code differs from its documentation

- The trigger for resolved nodes never fires: it looks for them among the active nodes
  (`CollectorAtWork.ResolvedNeverTriggers`), although line 452 of the repository's README.md lists it.
- Compression never sees facts, decisions or constraints (`RunLaws.BranchesCarryNoFacts`), although line 432
  of the repository's README.md says that verbatim snippets survive into compressed branches. Nodes that
  carry facts or decisions are kept out of every group. Constraints are in the groups and count towards
  their size, but goals and constraints are filtered out before a group is folded.
- On trees grown from events compaction never happens at all (`GrownTrees.GrownTreesNeverCompact`),
  although line 459 of the repository's README.md presents it as the third stage of collection.
- The compiled prompt can exceed its budget, because headings and bullets are not costed
  (`PromptLaws.BudgetCanBeExceeded`), although line 469 of the repository's README.md promises to stay within it.
  `PromptBudget.WithinBudgetIff` says exactly when it stays within the budget, and
  `PromptBudget.FittingWithinBudgetIff` says it of the given nodes alone when all of them fit.
  `PromptBudget.HeadroomSuffices` gives a headroom that is enough, and `PromptLaws.CompiledTokensBound`
  bounds the excess.
- `TokensFreed` counts a node twice that is both swept and folded, so it need not be the drop in active
  tokens: `FreedTokens.FreedCanExceedDrop` is a run that reports 59 for a drop of 30.
  `FreedTokens.FreedIsDropIff` says, of the tree before the run, exactly when the two are equal. On trees
  that sessions grow the difference never arises (`GrownTrees.GrownRunBalances`).
- Events accepted into the queue of an evicted session are lost: `ProtocolRuns.QueueCanBeLost` is a run that
  loses one, and `ProtocolRuns.StoppedWorkersLoseTheirQueue` says exactly when.
- The raw event is written to the database before its sequence number is assigned
  (internal/session/manager.go:458 and 464), so stored events do not carry the number that
  `ProtocolRuns.SequenceIsPosition` speaks of.

## Model

| member | source | states |
|---|---|---|
| `CappedMerge.DedupeLimited` | internal/facts/extract.go:209-224 | the loop with its `seen` map keeps the first spelling of every key, in order, up to the cap; a cap of zero or less still lets one item through |
| `CappedMerge.DedupeIs` | internal/facts/extract.go:209-224 | said without recursion: at most cap items, each the normal form of the first with its key, no key twice, and below the cap no key is missing |
| `CappedMerge.AppendUnique` | internal/facts/extract.go:34-60 | appending to a list is deduping the concatenation of both lists, for every cap from one up |
| `CappedMerge.DedupeAbsorbs` | internal/facts/extract.go:34-60 | deduping either part before concatenating changes nothing |
| `CappedMerge.StagedIsOneShot` | internal/facts/merge.go:10-27 | merging any number of lists one after another is one merge of all of them |
| `Facts.UnionFacts` | internal/facts/merge.go:37-41 | the union of two fact lists is the dedupe of their concatenation, under the default cap where the given one is not positive |
| `Facts.DedupedIs` | internal/facts/extract.go:34-60 | each fact kept is the trimmed form of the first with its letters whatever their case, no two differ in case only, and below the cap none is missing |
| `Facts.MergeFromNodes` | internal/facts/merge.go:10-27 | all facts and all decisions of the nodes, each deduped once, under the default cap where none is given |
| `Facts.BranchMergeIsOneShot` | internal/facts/merge.go:10-41 | cleaning and capping every branch's facts on their own and merging them one after another gives the facts of one merge over all of them |
| `Facts.AssistantFirstSentence` | internal/facts/extract.go:136-158 | the first non-blank line or sentence of a reply, as the loops find it |
| `Facts.ExtractAssistantDecisions` | internal/facts/extract.go:107-134 | the opening of a reply and its noted lines, deduped under the default cap |
| `Facts.RepliesDecide` | internal/facts/extract.go:63-84 | every assistant reply that is not blank leaves at least one decision on its node |
| `NodeLaws.KindOfEvent` | internal/statetree/tree.go:256-284 | a user prompt is a constraint if it contains a rule word in any case, else a goal; other events decide by their kind |
| `NodeLaws.NodeOfEvent` | internal/statetree/tree.go:89-121 | identity, place, size and summary of a fresh node come from the event and the turn, the summary cut after 500 characters |
| `NodeLaws.FactsOfEvent` | internal/facts/extract.go:63-84 | its facts are those found in the event, each once whatever its case, at most sixteen, and with fewer none is missing |
| `NodeLaws.DecisionsOfEvent` | internal/facts/extract.go:63-84 | only assistant replies decide, and what they decide is what they state, each once, at most sixteen, and with fewer none is missing |
| `NodeLaws.NotedIsDecided` | internal/facts/extract.go:107-134 | a one-line reply that notes something decides exactly that |
| `NodeLaws.OpeningIs` | internal/facts/extract.go:136-158 | the opening is the first of several lines, else what comes before the first full stop behind more than thirty characters, else all; at most 220 characters of it |
| `Entities.StripTrailingEntitiesLine` | internal/facts/merge.go:43-76 | what the parser returns for any text, including texts without an entities line |
| `Entities.PlainTextStays` | internal/facts/merge.go:43-76 | a reply whose last line is not keyed by the word in any case comes back as it is but for the line ends at its end, without entities |
| `Entities.EntitiesLineIsRead` | internal/facts/merge.go:43-76 | otherwise the rest, trimmed, is the body, and the pieces of the line are the entities |
| `Entities.EntitiesRoundTrip` | internal/facts/merge.go:43-94 | writing a body and at most cap clean entities as the compressor prompt asks for, then parsing, returns the trimmed body and exactly those entities |
| `Entities.StringsJoinComma` | internal/facts/merge.go:78-94 | the loop joins with comma and blank |
| `Domain.RenderInjective` | internal/statetree/tree.go:89-121 | distinct node ids print as distinct strings, whatever the session is called |
| `StateTree.Tree.constructor` | internal/statetree/tree.go:25-48 | a new tree is the root alone, at turn zero |
| `StateTree.Tree.RestoreFromSnapshot` | internal/statetree/tree.go:50-69 | for any list of nodes: the last node given for every id, the largest turn number, and the last goal or parentless node as the root |
| `StateTree.RestoredFromIs` | internal/statetree/tree.go:50-69 | for nodes with distinct ids, as every snapshot has, those are exactly the nodes of the snapshot, with the largest turn number and a goal or parentless node as the root |
| `StateTree.Tree.IncrementTurn` | internal/statetree/tree.go:75-80 | only the turn count moves |
| `StateTree.Tree.FindBestParent` | internal/statetree/tree.go:235-254 | the root for goals and constraints, else an active node that no active node is newer than, else the root |
| `StateTree.Tree.AddNode` | internal/statetree/tree.go:89-121 | the new node is stored under its turn's id and linked as the last child of a best parent, whose other children stay in place; no other node changes |
| `StateTree.Tree.GetActiveNodes` | internal/statetree/tree.go:124-136 | every active node once, in any order |
| `StateTree.Tree.UpdateNodeStatus` | internal/statetree/tree.go:157-164 | one node changes its status, unknown ids change nothing |
| `StateTree.Tree.ReplaceWithCompressed` | internal/statetree/tree.go:167-194 | the listed nodes are archived and the branch takes their place among the parent's children |
| `StateTree.Tree.Stats` | internal/statetree/tree.go:197-218 | counts by status, the widest node, and the depth below the root |
| `StateTree.StatsAreUnique` | internal/statetree/tree.go:197-218 | a tree determines its statistics, whatever order the maps are read in |
| `StateTree.Tree.DepthFrom` | internal/statetree/tree.go:220-233 | the recursion terminates on every well-formed tree and returns the depth |
| `StateTree.ChainsAreShort` | internal/statetree/tree.go:220-233 | no chain of child links is longer than the depth |
| `StateTree.SomeChainIsDeep` | internal/statetree/tree.go:220-233 | some chain is as long as the depth |
| `StateTree.OneChainPerNode` | internal/statetree/tree.go:220-233 | the recursion reaches a node along one chain only, so it visits no node twice |
| `StateTree.RestoredIsWellFormed` | internal/statetree/tree.go:50-69 | restoring keeps a tree well-formed, whichever goal is picked as the root |
| `StateTree.AddedKeepsWellFormed` | internal/statetree/tree.go:89-121 | so does adding the node of a new turn |
| `StateTree.ArchiveKeepsWellFormed` | internal/statetree/tree.go:157-164 | so does archiving |
| `StateTree.ReplacedKeepsWellFormed` | internal/statetree/tree.go:167-194 | so does replacing children by a compressed branch: links point back, never repeat, and turns rise along them or end in a compressed leaf |
| `VectorMath.CosineSim` | internal/scorer/scorer.go:143-159 | the cosine of the angle, zero for empty, unequal or null vectors |
| `VectorMath.CosineDistance` | internal/vectorindex/vectorindex.go:212-229 | one minus the cosine similarity |
| `VectorMath.CauchySchwarz` | internal/scorer/scorer.go:143-159 | the inequality behind the bounds |
| `VectorMath.CosineBounds` | internal/scorer/scorer.go:143-159 | cosine similarity lies between -1 and 1 |
| `VectorMath.CosineOfMultiple` | internal/scorer/scorer.go:143-159 | the cosine of a vector and a positive multiple of it is 1, of a negative one -1 |
| `VectorMath.CosineOfDisjoint` | internal/scorer/scorer.go:143-159 | vectors that share no component have cosine 0 |
| `Scoring.BuildTitleIndex` | internal/scorer/scorer.go:201-208 | for every title, how many entries of the list have it, up to case |
| `Scoring.CountDependents` | internal/scorer/scorer.go:185-199 | how many entries of the list are other active nodes that name the node as a dependency |
| `Scoring.ScoreAll` | internal/scorer/scorer.go:63-138 | every listed node gets the score that the original nodes determine, although scores are written while others are still read; repeated entries count as often as they occur |
| `Scoring.RescoredListIs` | internal/scorer/scorer.go:63-138 | without repetitions, scoring a list is scoring the set of its nodes: the order of the list does not matter |
| `Scoring.OlderScoresNoHigher` | internal/scorer/scorer.go:71-138 | all else equal, an older node with fewer dependents never scores higher, for every decreasing decay, and scores lie between 0 and 1 |
| `Scoring.FewerTwinsScoreHigher` | internal/scorer/scorer.go:71-138 | a smaller set of nodes never lowers a score through redundancy |
| `ScoreLaws.DefaultScoreIs` | internal/scorer/scorer.go:71-138 | with the default weights, the score as a weighted sum of what can be seen of a node, cut to the unit interval |
| `ScoreLaws.EveryKindIsListed` | internal/scorer/scorer.go:161-183 | every kind of node has a place in the order of importance |
| `ScoreLaws.BetterScoresNoLower` | internal/scorer/scorer.go:71-138 | for all weights that are not negative: a node that is newer, of a more important kind, more similar, smaller, with more dependents, fewer twins and no worse issues and status never scores lower |
| `CollectorAtWork.ShouldRun` | internal/gc/gc.go:95-143 | the first trigger that fires, in the order of the code |
| `CollectorAtWork.ResolvedNeverTriggers` | internal/gc/gc.go:123-140 | the trigger for resolved nodes is unreachable |
| `TriggerLaws.PressureIff` | internal/gc/gc.go:95-105 | a run starts for token pressure if and only if the budget, requested or else the policy's, is positive and below the estimate |
| `TriggerLaws.QuietIff` | internal/gc/gc.go:95-143 | no run starts if and only if the estimate is within the budget and its soft limit, the active nodes within their number, no chain and no child list beyond its limit, and the average retention not below the threshold |
| `TriggerLaws.ReasonsAreTrue` | internal/gc/gc.go:95-143 | whatever reason is given, its limit is really exceeded |
| `CollectorAtWork.Mark` | internal/gc/gc.go:160-178 | the nodes to sweep and the groups by parent, leaving out nodes with facts or decisions |
| `CollectorAtWork.SweepAll` | internal/gc/gc.go:180-187 | the marked nodes are archived and their tokens added up |
| `CollectorAtWork.FilterCompressible` | internal/gc/gc.go:264-273 | all but goals and constraints, in order |
| `CollectorAtWork.IsAllResolved` | internal/gc/gc.go:255-262 | no node of the group is active |
| `CollectorAtWork.CompactBranches` | internal/gc/gc.go:189-245 | the compaction loop over the parents in any order |
| `CollectorAtWork.Collect` | internal/gc/gc.go:152-248 | a run of the collector on a tree has the outcome that the laws below speak of |
| `CollectorAtWork.SimpleCompress` | internal/gc/gc.go:276-320 | what the built-in compressor returns, and that it is a link-free compressed branch |
| `CompressorLaws.BranchKeeps` | internal/gc/gc.go:276-320 | below the cap no fact and no decision of a folded node is lost, and no issue and no event reference ever |
| `CompressorLaws.BranchInventsNothing` | internal/gc/gc.go:276-320 | every fact of the branch is a fact of some folded node |
| `CompressorLaws.SummaryKeeps` | internal/gc/gc.go:276-320 | every fact of the branch can be read in its summary, and so can the folded summaries, all of them or the first and the last |
| `Compaction.CompactAllProgress` | internal/gc/gc.go:189-245 | in every order, what the loop has done so far depends on the set of parents it has visited alone |
| `Compaction.CompactionIsConfluent` | internal/gc/gc.go:189-245 | two orders give the same nodes, the same freed tokens, and the same records up to order |
| `RunLaws.RunIsConfluent` | internal/gc/gc.go:152-248 | the same for whole runs |
| `SweepLaws.SweptIff` | internal/gc/gc.go:164-173 | a node is swept if and only if it is active, carries neither facts nor decisions, and its fresh score is below the threshold, as is the floor for a decision under a positive floor; no kind is exempt |
| `SweepLaws.LowGoalsAreArchived` | internal/gc/gc.go:180-187 | so a goal or the root below the threshold ends archived |
| `SweepLaws.OldGoalsAreArchived` | internal/gc/gc.go:164-187 | with the default weights and threshold that is the end of every bare goal once its recency has decayed below 0.4 |
| `SweepLaws.FoldedIffDue` | internal/gc/gc.go:189-198 | with a compressor that answers, a node is folded if and only if it is active, bare, neither goal nor constraint, and its mates under its parent are as many as the width limit or all swept, three of them foldable |
| `SweepLaws.BranchTakesTheirPlace` | internal/statetree/tree.go:167-194 | the branch is among its parent's children, its originals are archived and unlinked, all other children stay |
| `SweepLaws.RecordSays` | internal/gc/gc.go:200-226 | the branch is the compressor's answer for its originals, and the record adds up the tokens of both sides |
| `RunLaws.OldNodesEvolve` | internal/gc/gc.go:180-223 | a run changes status, child links and scores of old nodes only, and archives exactly the swept and the folded ones |
| `RunLaws.NewNodesAreBranches` | internal/gc/gc.go:200-223 | every new node is a compressed branch under an old parent |
| `RunLaws.ActiveAfterRun` | internal/gc/gc.go:152-248 | the active set afterwards is the old one less the swept and the folded nodes |
| `RunLaws.TokensFreedIs` | internal/gc/gc.go:180-226 | freed tokens are those of swept or folded nodes, plus those of swept and folded ones, less those of the new branches |
| `RunLaws.FreedVersusDrop` | internal/gc/gc.go:180-226 | freed tokens are the drop in active tokens if and only if the nodes both swept and folded weigh as much as the new branches, in terms of the outcome |
| `FreedTokens.FreedIsDropIff` | internal/gc/gc.go:160-226 | the same condition on the tree before the run: the nodes that are sweepable and in a group that is due and will be answered weigh as much as the answers |
| `FreedTokens.NothingDueNothingTwice` | internal/gc/gc.go:189-198 | if no group is due, freed tokens are the drop in active tokens |
| `FreedTokens.FreedCanExceedDrop` | internal/gc/gc.go:180-226 | every run of a certain tree of three leaves, with the default weights, reports 59 freed tokens for a drop of 30 |
| `FreedTokens.SomeWideRun` | internal/gc/gc.go:152-248 | there is such a run |
| `RunLaws.RunKeepsPinned` | internal/gc/gc.go:82-84 | a node with facts or decisions keeps its status and what it carries |
| `RunLaws.RunKeepsWellFormed` | internal/gc/gc.go:152-248 | a run keeps a tree well-formed |
| `RunLaws.BranchesCarryNoFacts` | internal/gc/gc.go:164-219 | the nodes a branch is made of have no facts, no decisions, and are no constraints |
| `TwoRuns.SecondRunDoesNothing` | internal/gc/gc.go:152-248 | on any well-formed tree without dependencies between active nodes, a second run at the same turn and query sweeps nothing, folds nothing, frees nothing, and changes at most scores |
| `TwoRuns.SurvivorsScoreNoLower` | internal/scorer/scorer.go:63-138 | nodes that survive a run score no lower in the next |
| `TwoRuns.StatusesIgnoreOrders` | internal/gc/gc.go:152-248 | whatever the iteration orders, the same nodes are swept, the same are folded, and every old node ends with the same status |
| `GrownTrees.NewTreeIsGrown` | internal/statetree/tree.go:25-48 | new trees satisfy the invariant of grown trees |
| `GrownTrees.RestoredIsGrown` | internal/statetree/tree.go:50-69 | so do restored ones, with a turn count no larger |
| `GrownTrees.AddedIsGrown` | internal/statetree/tree.go:235-254 | adding the next turn's node keeps it: a parent has at most one active child that is neither goal nor constraint, and the id is new |
| `GrownTrees.EveryNodeIsReached` | internal/statetree/tree.go:115-118 | in a grown tree every node with a parent is among its parent's children, so every node is reached by child links from a node without a parent |
| `GrownTrees.RunKeepsGrown` | internal/gc/gc.go:152-248 | a run keeps it |
| `GrownTrees.GroupsAreThin` | internal/gc/gc.go:190-198 | a group of a grown tree has at most one node to fold |
| `GrownTrees.GrownTreesNeverCompact` | internal/gc/gc.go:189-245 | so a run of a grown tree sweeps and does nothing else |
| `GrownTrees.GrownRunBalances` | internal/gc/gc.go:180-187 | and what it frees is exactly what leaves the active set |
| `VectorIndex.HNSWIndex.Insert` | internal/vectorindex/vectorindex.go:88-106 | an accepted insert updates the live map and clears the tombstone, a rejected one changes nothing; accepted are named entries with a vector of the index's size |
| `VectorIndex.HNSWIndex.Delete` | internal/vectorindex/vectorindex.go:108-122 | the id leaves the live map; the result is whether it was stored, tombstoned or not |
| `VectorIndex.HNSWIndex.CompactLocked` | internal/vectorindex/vectorindex.go:196-207 | a rebuild drops the tombstoned vectors and keeps the others |
| `VectorIndex.HNSWIndex.Len` | internal/vectorindex/vectorindex.go:167-173 | the size of the live map |
| `VectorIndex.HNSWIndex.RebuildFromVectors` | internal/vectorindex/vectorindex.go:175-194 | exactly the entries that could have been inserted |
| `VectorIndex.HNSWIndex.Query` | internal/vectorindex/vectorindex.go:124-165 | hits are live entries with their own distance and score, k at most, or ten if k is not positive; with an exact search they are the k nearest live entries, as many as there are; and when a query fails |
| `VectorIndex.QueryIsExact` | internal/vectorindex/vectorindex.go:124-165 | over-fetching by the number of tombstones and filtering is exact on the live map, with exactly min(k, live) results |
| `VectorIndex.InsertKeepsSound` | internal/vectorindex/vectorindex.go:88-106 | inserts keep tombstones below a fifth and rebuilds paid for |
| `VectorIndex.DeleteKeepsSound` | internal/vectorindex/vectorindex.go:108-122 | so do deletes, and a rebuild is invisible in the live map |
| `VectorIndex.EveryRun` | internal/vectorindex/vectorindex.go:88-122 | over every run from empty: the index is the plain map of the same calls, tombstones are at most a fifth of the stored vectors, and all rebuilds together add at most four nodes per delete call |
| `Worker.ProcessKeepsGrown` | internal/session/manager.go:450-569 | processing an event keeps the tree grown |
| `Worker.ProcessKeepsInv` | internal/session/manager.go:471-531 | processing an event keeps the active index equal to the active nodes' vectors, the archive index equal to the archived nodes' vectors, and the durable records in step |
| `SessionRuns.InvAlways` | internal/session/manager.go:450-569 | so this holds in every state of every run |
| `SessionRuns.RecordsRebuildIndices` | internal/session/manager.go:192-215 | at any time, rebuilding both indices from the durable records gives what is in memory |
| `SessionRuns.ColdStartResumes` | internal/session/manager.go:163-215 | a snapshot and a cold start bring back all nodes and both indices |
| `SessionRuns.NodesOnlyAge` | internal/session/manager.go:450-569 | over whole runs nodes are never removed, archived nodes stay archived, and nothing else changes but scores and child links |
| `SessionRuns.PinnedForever` | internal/gc/gc.go:82-84 | a node that ever holds a fact or decision while active stays active |
| `SessionRuns.PinnedInFreshRuns` | internal/gc/gc.go:82-84 | in every state of every run from a fresh session, every node that holds a fact or decision is active |
| `SessionRuns.RepliesStayActive` | internal/facts/extract.go:107-158 | the node of every non-blank assistant reply stays active for the rest of the run |
| `SessionRuns.Ledger` | internal/session/manager.go:520-526 | from any sound starting state, restored ones included, active tokens plus saved tokens are the starting balance plus the tokens of all events, and no branch is ever compressed |
| `SessionRuns.FreshLedger` | internal/session/manager.go:520-526 | from a fresh session, the tokens of all events are active or accounted as saved |
| `EventLaws.ScoresAreFresh` | internal/session/manager.go:495-497 | after an event every node that is or was active has exactly the score that its own fields, the new turn, the anchor, and the twins and dependents among the active nodes with the new one determine |
| `EventLaws.QuietEventsStayWithin` | internal/session/manager.go:495-510 | an event that does not collect leaves active tokens, number, depth, width and average score within their limits |
| `EventLaws.PressureCollects` | internal/session/manager.go:505-523 | an event that takes the active tokens over a positive budget collects |
| `EventLaws.StatusAfterEvent` | internal/session/manager.go:505-521 | of the active nodes, exactly those stay active that a run spares, by the scores they are left with; all of them without a run |
| `EventLaws.CountersAfterEvent` | internal/session/manager.go:483-503 | the anchor is the latest user prompt's vector; every event counts, and every user prompt as a turn |
| `EventLaws.EventNodeIsRecorded` | internal/session/manager.go:490-493 | the durable record of the event's node has everything the event put on it |
| `EventLaws.AfterEveryEvent` | internal/session/manager.go:450-569 | over whole runs: after every event the active nodes have fresh scores, and everything is within its limit or every active node is one that a run spares |
| `EventLaws.LinkedAlways` | internal/statetree/tree.go:115-118 | in every state of every run every node with a parent is among its parent's children |
| `SessionAtWork.SessionState.constructor` | internal/session/manager.go:163-215 | a session object is restored from its snapshot, any list of nodes, or new without one, and both indices are primed from the records |
| `SessionAtWork.SessionState.EffectiveBudget` | internal/session/manager.go:129-138 | a positive request replaces the session's budget and wins; else the session's own or the default |
| `SessionAtWork.SessionState.EstimateTokens` | internal/session/manager.go:505-509 | the token estimate is the active token total |
| `SessionAtWork.SessionState.ReconcileIndices` | internal/session/manager.go:619-637 | the vectors of exactly the nodes that left the active set move from one index to the other |
| `SessionAtWork.SessionState.ProcessEvent` | internal/session/manager.go:450-569 | the step-by-step worker code does what the function `Process` says, for the answers its environment gave; it stores the raw event first, and assigns the next sequence number |
| `SessionAtWork.SessionState.SnapshotSession` | internal/session/manager.go:571-593 | every node is in the snapshot, once, and in the records |
| `Protocol.OpenedIsHealthy` | internal/session/manager.go:154-222 | a session built under the lock is sound, and if it was known before, has its predecessor's nodes and indices |
| `Protocol.HandleKeepsInv` | internal/session/manager.go:430-431 | handling an event keeps the invariant of the whole manager |
| `Protocol.RemoveKeepsInv` | internal/session/manager.go:436-445 | so does the locked removal after the last snapshot |
| `Protocol.NextKeepsInv` | internal/session/manager.go:395-448 | so does every step |
| `Protocol.WorldInvAlways` | internal/session/manager.go:395-448 | so the invariant holds in every state of every interleaving |
| `ProtocolRuns.OneWriter` | internal/session/manager.go:154-219 | at most one worker that has not stopped serves a session, and it is the one in the table |
| `ProtocolRuns.HandledInOrder` | internal/session/manager.go:395-431 | handled events are a prefix of the accepted ones, in order, the rest is queued within the capacity |
| `ProtocolRuns.SequenceIsPosition` | internal/session/manager.go:463-464 | every event gets its position in the history of its session as its sequence number when it is handled, gap-free across evictions |
| `ProtocolRuns.IdsAreFresh` | internal/statetree/tree.go:89-93 | no node id is ever issued twice |
| `ProtocolRuns.ReopenedAsItWas` | internal/session/manager.go:163-215 | a session created again after eviction has all nodes and both indices of its predecessor |
| `ProtocolRuns.NodesSurvive` | internal/session/manager.go:436-445 | over every run, evictions included, no node is lost and nodes only age |
| `ProtocolRuns.PinnedAcrossRestores` | internal/gc/gc.go:82-84 | pinning holds across evictions |
| `ProtocolRuns.PinnedActiveEverywhere` | internal/gc/gc.go:82-84 | in every state of every run of the manager, every node of every session that holds a fact or decision is active |
| `ProtocolRuns.LinkedEverywhere` | internal/statetree/tree.go:115-118 | the links hold across evictions and restores |
| `ProtocolRuns.HandledEventsHaveNodes` | internal/session/manager.go:462-465 | every event ever handled has its node in the session at any later time |
| `ProtocolRuns.StoppedWorkersLoseTheirQueue` | internal/session/manager.go:436-445 | of the events accepted before removal, all are ever handled if and only if the queue was empty at the removal |
| `ProtocolRuns.QueueCanBeLost` | internal/session/manager.go:395-448 | a run in which a session accepts an event, is found idle, and stops without ever handling it |
| `Selection.SelectWithinBudget` | internal/compiler/compiler.go:243-264 | the loop takes an item whenever it still fits |
| `Selection.ChooseFits` | internal/compiler/compiler.go:243-264 | selected and excluded items are the given ones, and the cost used is the total and within the budget |
| `Selection.ChooseIsMaximal` | internal/compiler/compiler.go:243-264 | no excluded item fits into what is left |
| `Selection.PickIsMaximal` | internal/compiler/compiler.go:194-233 | across all buckets, no item of positive cost that was left out fits into the final rest |
| `Selection.PickAllIff` | internal/compiler/compiler.go:194-233 | everything is selected if and only if every non-empty bucket is reached with budget left and fits |
| `PromptCompiler.FormatSection` | internal/compiler/compiler.go:275-295 | the text of a section, with fact lines for compressed and summary nodes only |
| `PromptCompiler.StabilizeRenderOrder` | internal/compiler/cache_render.go:11-24 | the stable arrangement by turn and printed id |
| `PromptCompiler.Compile` | internal/compiler/compiler.go:108-241 | bucketing, sorting, selection and rendering give the compiled prompt of buckets ranked by score, for some order of the ties |
| `PromptLaws.BucketsPartition` | internal/compiler/compiler.go:130-150 | every node is in exactly one bucket |
| `PromptLaws.WithinRoom` | internal/compiler/compiler.go:188-233 | the total cost selected never exceeds budget less reserve, and no node is selected more often than given |
| `PromptLaws.RenderedOnce` | internal/compiler/compiler.go:188-233 | of nodes with distinct ids, the compiler selects none twice for rendering |
| `PromptLaws.NothingMoreFits` | internal/compiler/compiler.go:188-264 | an unselected node of positive cost costs more than what is left |
| `PromptRanking.ActiveGoalIsBest` | internal/compiler/compiler.go:152-186 | the active goal of a prompt is the title of a goal of highest score, effective where there is one, else retention; none without goals |
| `PromptRanking.BetterAreRendered` | internal/compiler/compiler.go:194-264 | every prompt is the text of a selection in which, within a section, no node left out scores above a rendered one that costs no less |
| `PromptRanking.LaterSectionsCostLess` | internal/compiler/compiler.go:190-233 | all nodes rendered in later sections together cost less than any node of positive cost left out of an earlier one |
| `PromptRanking.SelectedIsRead` | internal/compiler/compiler.go:191-241 | the lines of every selected node stand in the prompt, in a section under the heading for its kind |
| `PromptContents.NodeIsNamed` | internal/compiler/compiler.go:275-295 | a node is rendered by its summary, or by its title without one |
| `PromptContents.FactsAreRead` | internal/compiler/compiler.go:275-295 | compressed and summary nodes print every fact and every decision they carry |
| `PromptContents.RenderedByTurn` | internal/compiler/cache_render.go:11-24 | with stable rendering a section runs by turn, and by printed id within a turn |
| `PromptContents.NotedIff` | internal/compiler/compiler.go:194-233 | noted as excluded is exactly what was left out of buckets from which something was taken |
| `PromptContents.ListsOfPrompt` | internal/compiler/compiler.go:184-233 | decisions, context, tool outputs and issues are listed as rendered, constraints whether selected or not |
| `PromptLaws.AllSelectedIff` | internal/compiler/compiler.go:188-264 | all nodes are selected if and only if all fit |
| `PromptLaws.RoomForEverything` | internal/compiler/compiler.go:188-264 | nodes that together cost less than the room are all selected |
| `PromptLaws.StableOrderIsUnique` | internal/compiler/cache_render.go:11-24 | any two orderings of nodes with distinct ids are rendered in the same order |
| `PromptLaws.SameSelectionSamePrompt` | internal/compiler/compiler.go:194-235 | with stable rendering, equal selections give identical text |
| `PromptLaws.FittingPromptIsUnique` | internal/compiler/compiler.go:194-235 | when everything fits, the text depends on the set of nodes alone |
| `PromptLaws.ToggleKeepsSelection` | internal/compiler/compiler.go:200-206 | the switch changes neither the selection, nor the noted exclusions, nor the length of the text |
| `PromptLaws.PromptSize` | internal/compiler/compiler.go:235-295 | the exact length of the text |
| `PromptLaws.CompiledTokensBound` | internal/compiler/compiler.go:167-241 | under the fallback counter, compiled tokens are at most max(budget, reserve) plus nine per rendered node and eight per section |
| `PromptLaws.BudgetCanBeExceeded` | internal/compiler/compiler.go:235-238 | a concrete prompt of five tokens compiled under a budget of two |
| `PromptBudget.WithinBudgetIff` | internal/compiler/compiler.go:188-241 | under the fallback counter, a prompt is within its budget if and only if headings, lines and separators of the selection fit into four characters for every token the reserve leaves, and three more |
| `PromptBudget.FittingWithinBudgetIff` | internal/compiler/compiler.go:188-241 | when all nodes together cost less than the room, the same condition on the given nodes alone |
| `PromptBudget.HeadroomSuffices` | internal/compiler/compiler.go:188-241 | cost and reserve plus nine tokens per node and eight per section that has one within the budget: the prompt is within it |
| `PromptBudget.SectionsOfAll` | internal/compiler/compiler.go:130-150 | the sections counted there can be read off the given nodes |
| `SessionPrompts.EventNodeIsPriced` | internal/statetree/tree.go:292-297 | the token count of a node made from an event covers its truncated summary, for events with a payload whose count is zero, as of a manual trigger, or at least a quarter of the payload |
| `SessionPrompts.SessionPromptBound` | internal/compiler/compiler.go:167-241 | the bound holds for every prompt compiled in any state of any run from a fresh session whose events have a payload and a count of zero or at least a quarter of it |
| `SemanticCompile.MergeSemanticHits` | internal/session/semantic_merge.go:12-30 | every hit id once, with a best score for it, best first |
| `SemanticCompile.NodesForSemanticCompile` | internal/session/semantic_merge.go:33-55 | the active nodes and the archived nodes that were hit, each once |
| `SemanticCompile.CompileWithSemantic` | internal/compiler/compiler.go:66-91 | ranking by effective scores, or by retention scores when there are no hits or no weight |
| `SemanticCompile.EffectiveScoreIs` | internal/compiler/compiler.go:76-90 | a node is ranked by its retention score, and if it was hit, by that plus the weighted difference between the hit and the old similarity |
| `SemanticCompile.ReblendAgainstRescore` | internal/compiler/compiler.go:76-90 | the exact difference between a blended score and a fresh score: what the clamps move, and the similarity cut off below zero |
| `SemanticCompile.EffectiveIsRescore` | internal/compiler/compiler.go:76-90 | with a similarity that is not negative and no clamp active, the effective score of a hit is the score that scoring all nodes with the fresh query would give |
| `PromptCompilation.HitsAreOfNodes` | internal/session/manager.go:279-292 | a hit of either index is about a node of the session with that index's status, by that node's own embedding |
| `PromptCompilation.IndicesAreDisjoint` | internal/session/semantic_merge.go:12-30 | no node is in both indices |
| `PromptCompilation.QueryBoth` | internal/session/manager.go:279-291 | refused if and only if an index refuses; else the merge of what both queries report, the nearest live entries of each index if the search is exact |
| `PromptCompilation.CompileForSession` | internal/session/manager.go:262-295 | a prompt is compiled from exactly the active nodes and the archived nodes that these hits name, each once; without a query vector, or when an index refuses it, from the active nodes by retention score |
| `PromptCompilation.CompilePrompt` | internal/session/manager.go:230-296 | for an unknown session an empty text and the tokens of the other messages; else that prompt under the resolved budget, and the session changes in nothing but a requested budget |

## Left out

- MongoDB, gRPC, HTTP, the LLM and the embedding API: stores are maps, embeddings and compression are parameters. Store errors and process crashes are not modelled; store calls succeed.
- The HNSW graph and the BPE tokenizer: the graph is what was added to it with a search that returns distinct stored ids, the token counter is a function; the bound on compiled tokens is for the counter of one token per four characters.
- The compressor: it returns link-free branch nodes under ids nobody else has. The source takes ids from the clock, so this is an assumption of the run laws (`RunLaws.IsRun`), and it does not read child links.
- Wall-clock times, latency breakdowns, logging, metrics persistence and GC logs: no effect on what is proved. Idle expiry is a step that may happen at any time.
- Floating-point rounding, integer width and overflow: scores and vectors are reals, counts are unbounded.
- Strings are sequences of characters with a case mapping per character, and `EqualFold` is equality after mapping; byte lengths and multi-byte case folding are not modelled.
- The regular expressions and the lexicon for user facts: a parameter of extraction (`Facts.Texts`).
- Nodes are values in the tree's map. Pointers to nodes that callers keep, and races on unlocked fields such as the last activity, are not modelled.
- The session manager's table, locks and channels are steps of a transition system, not a class. An unbuffered channel, which can hand an event over without queueing it, is not modelled; a queue of capacity zero accepts nothing.
- An embedder is always configured; without one, both indices stay empty.
- Task ids, timestamps and the embedding model's name on stored events and nodes. The sequence number is the number `ProcessEvent` assigns; the stored raw event has none.
- Manual GC requests are ordinary events in the source, with a fixed payload and no token count, and have no step of their own.
- Evaluation, stress tests, demo and metrics code.
