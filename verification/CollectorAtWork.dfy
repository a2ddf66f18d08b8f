/** The garbage collector at work on a mutable tree: the triggers, the cycle itself, and the
    compressor that needs no model. */
module CollectorAtWork {
  import opened Collections
  import opened Domain
  import opened Text
  import opened Facts
  import opened Entities
  import opened VectorMath
  import opened StateTree
  import opened Scoring
  import opened GarbageCollector

  // ---------------------------------------------------------------- triggers

  datatype TriggerReason =
    | NoReason | TokenPressure | SoftHeadroom | ActiveCount | TreeDepth | TreeWidth | LowRelevance | ResolvedBranch

  ghost function RetentionOn(nodes: Nodes, ids: set<NodeID>): real {
    RealSum(map id | id in ids && id in nodes :: nodes[id].scores.retention)
  }

  function BudgetFor(policy: Policy, maxPromptTokens: int): int {
    if maxPromptTokens <= 0 then policy.maxPromptTokens else maxPromptTokens
  }

  ghost predicate AverageBelow(nodes: Nodes, limit: real) {
    var n := |ActiveIds(nodes)|;
    n > 0 && RetentionOn(nodes, ActiveIds(nodes)) / n as real < limit
  }

  /** The triggers on size and shape, in the order in which they are looked at. */
  function SizeTrigger(policy: Policy, active: nat, s: TreeStats, estimated: int, budget: int): TriggerReason {
    if budget > 0 && estimated > budget then TokenPressure
    else if 0.0 < policy.headroom < 1.0 && budget > 0
            && estimated > (budget as real * policy.headroom).Floor then SoftHeadroom
    else if policy.maxActiveNodes > 0 && active > policy.maxActiveNodes then ActiveCount
    else if s.maxDepth > policy.maxTreeDepth then TreeDepth
    else if s.maxWidth > policy.maxChildren then TreeWidth
    else NoReason
  }

  /** The triggers on the content of the active nodes. */
  ghost function ContentTrigger(policy: Policy, nodes: Nodes): TriggerReason {
    if AverageBelow(nodes, policy.lowRelevance) then LowRelevance
    else if exists id :: id in ActiveIds(nodes) && nodes[id].status == Resolved then ResolvedBranch
    else NoReason
  }

  /** The first trigger that fires. */
  ghost function Trigger(policy: Policy, nodes: Nodes, s: TreeStats, estimated: int,
                         maxPromptTokens: int): TriggerReason {
    var t := SizeTrigger(policy, |ActiveIds(nodes)|, s, estimated, BudgetFor(policy, maxPromptTokens));
    if t != NoReason then t else ContentTrigger(policy, nodes)
  }

  /** The trigger for resolved nodes is never reached: it looks for them among the active nodes. */
  lemma ResolvedNeverTriggers(policy: Policy, nodes: Nodes, s: TreeStats, estimated: int, maxPromptTokens: int)
    ensures Trigger(policy, nodes, s, estimated, maxPromptTokens) != ResolvedBranch
  {
    assert forall id :: id in ActiveIds(nodes) ==> nodes[id].status != Resolved;
  }

  lemma RetentionStep(nodes: Nodes, ids: set<NodeID>, id: NodeID)
    requires id in nodes && id !in ids
    ensures RetentionOn(nodes, ids + {id}) == RetentionOn(nodes, ids) + nodes[id].scores.retention
  {
    var m := map i | i in ids && i in nodes :: nodes[i].scores.retention;
    assert (map i | i in ids + {id} && i in nodes :: nodes[i].scores.retention) == m[id := nodes[id].scores.retention];
    RealSumInsert(m, id, nodes[id].scores.retention);
  }

  /** The accumulator loop over the active nodes. */
  method Relevance(nodes: Nodes, active: seq<NodeID>) returns (total: real, hasResolved: bool)
    requires Enumerates(active, ActiveIds(nodes))
    ensures total == RetentionOn(nodes, ActiveIds(nodes))
    ensures hasResolved <==> exists id :: id in ActiveIds(nodes) && nodes[id].status == Resolved
  {
    total, hasResolved := 0.0, false;
    ghost var seen: set<NodeID> := {};
    assert RetentionOn(nodes, {}) == 0.0 by {
      NoRetention(nodes, {});
    }
    for i := 0 to |active|
      invariant seen == Elems(active[..i]) && seen <= ActiveIds(nodes)
      invariant total == RetentionOn(nodes, seen)
      invariant hasResolved <==> exists id :: id in seen && nodes[id].status == Resolved
    {
      assert active[i] in Elems(active);
      ElemsStep(active, i);
      RetentionStep(nodes, seen, active[i]);
      seen := seen + {active[i]};
      total := total + nodes[active[i]].scores.retention;
      if nodes[active[i]].status == Resolved {
        hasResolved := true;
      }
    }
    assert active[..|active|] == active;
  }

  lemma NoRetention(nodes: Nodes, ids: set<NodeID>)
    ensures ids == {} ==> RetentionOn(nodes, ids) == 0.0
  {
    var m := map i | i in ids && i in nodes :: nodes[i].scores.retention;
    assert m.Keys <= ids;
  }

  method SizeReason(policy: Policy, active: nat, s: TreeStats, estimated: int, budget: int)
    returns (reason: TriggerReason)
    ensures reason == SizeTrigger(policy, active, s, estimated, budget)
  {
    if budget > 0 && estimated > budget {
      return TokenPressure;
    }
    if policy.headroom > 0.0 && policy.headroom < 1.0 && budget > 0 {
      var softLimit := (budget as real * policy.headroom).Floor;
      if estimated > softLimit {
        return SoftHeadroom;
      }
    }
    if policy.maxActiveNodes > 0 && active > policy.maxActiveNodes {
      return ActiveCount;
    }
    if s.maxDepth > policy.maxTreeDepth {
      return TreeDepth;
    }
    if s.maxWidth > policy.maxChildren {
      return TreeWidth;
    }
    reason := NoReason;
  }

  method ContentReason(policy: Policy, nodes: Nodes, active: seq<NodeID>) returns (reason: TriggerReason)
    requires Enumerates(active, ActiveIds(nodes))
    ensures reason == ContentTrigger(policy, nodes)
  {
    EnumerationSize(active);
    if |active| > 0 {
      var total, hasResolved := Relevance(nodes, active);
      if total / |active| as real < policy.lowRelevance {
        return LowRelevance;
      }
      if hasResolved {
        return ResolvedBranch;
      }
    }
    reason := NoReason;
  }

  /** The first trigger that fires on the tree's statistics. */
  method ShouldRun(policy: Policy, tree: Tree, estimated: int, maxPromptTokens: int) returns (reason: TriggerReason)
    requires WellFormed(tree.State())
    ensures forall s :: AreStats(tree.State(), s) ==>
              reason == Trigger(policy, tree.nodes, s, estimated, maxPromptTokens)
  {
    var s := tree.Stats();
    forall t | AreStats(tree.State(), t) ensures t == s {
      StatsAreUnique(tree.State(), s, t);
    }
    var budget := maxPromptTokens;
    if budget <= 0 {
      budget := policy.maxPromptTokens;
    }
    var active := tree.GetActiveNodes();
    EnumerationSize(active);
    reason := SizeReason(policy, |active|, s, estimated, budget);
    if reason == NoReason {
      reason := ContentReason(policy, tree.nodes, active);
    }
  }

  // ---------------------------------------------------------------- mark, sweep, compact

  lemma GroupOfStep(nodes: Nodes, order: seq<NodeID>, i: nat, p: NodeID)
    requires i < |order|
    ensures GroupOf(nodes, order[..i + 1], p) ==
      GroupOf(nodes, order[..i], p) + if order[i] in nodes && InGroup(nodes[order[i]], p) then [order[i]] else []
    ensures p !in Parents(nodes, order[..i]) ==> GroupOf(nodes, order[..i], p) == []
  {
    assert order[..i + 1][..i] == order[..i];
    GroupOfMembers(nodes, order[..i], p);
    if GroupOf(nodes, order[..i], p) != [] {
      HasMember(GroupOf(nodes, order[..i], p));
    }
  }

  lemma ParentsStep(nodes: Nodes, order: seq<NodeID>, i: nat)
    requires i < |order|
    ensures Parents(nodes, order[..i + 1]) == Parents(nodes, order[..i])
      + if order[i] in nodes && InGroup(nodes[order[i]], nodes[order[i]].parent) then {nodes[order[i]].parent} else {}
  {
    assert order[..i + 1] == order[..i] + [order[i]];
  }

  lemma OneGroupGrows(before: Groups, after: Groups, q: NodeID, id: NodeID)
    requires after.Keys == before.Keys + {q}
    requires forall p :: p in after ==> after[p] == GroupAt(before, p) + if p == q then [id] else []
    ensures after == before[q := GroupAt(before, q) + [id]]
  {
    forall p | p in after && p != q ensures after[p] == before[p] {
      assert GroupAt(before, p) + [] == before[p];
    }
  }

  lemma MarkOne(nodes: Nodes, order: seq<NodeID>, i: nat, p: NodeID)
    requires i < |order| && p in MarkGroups(nodes, order[..i + 1])
    ensures MarkGroups(nodes, order[..i + 1])[p]
         == GroupAt(MarkGroups(nodes, order[..i]), p)
            + if order[i] in nodes && InGroup(nodes[order[i]], p) then [order[i]] else []
  {
    GroupOfStep(nodes, order, i, p);
  }

  /** One more node is marked: its parent's group grows, if it is a candidate. */
  lemma MarkGroupsStep(nodes: Nodes, order: seq<NodeID>, i: nat)
    requires i < |order|
    ensures var before, id := MarkGroups(nodes, order[..i]), order[i];
      MarkGroups(nodes, order[..i + 1]) ==
        if id in nodes && InGroup(nodes[id], nodes[id].parent) then
          before[nodes[id].parent := GroupAt(before, nodes[id].parent) + [id]]
        else before
  {
    var before, after, id := MarkGroups(nodes, order[..i]), MarkGroups(nodes, order[..i + 1]), order[i];
    ParentsStep(nodes, order, i);
    forall p | p in after
      ensures after[p] == GroupAt(before, p) + if id in nodes && InGroup(nodes[id], p) then [id] else []
    {
      MarkOne(nodes, order, i, p);
    }
    if id in nodes && InGroup(nodes[id], nodes[id].parent) {
      OneGroupGrows(before, after, nodes[id].parent, id);
    } else {
      forall p | p in after ensures after[p] == before[p] {
        assert GroupAt(before, p) + [] == before[p];
      }
    }
  }

  /** The marking loop. */
  method Mark(policy: Policy, nodes: Nodes, active: seq<NodeID>) returns (toSweep: seq<NodeID>, parentChildren: Groups)
    requires Known(nodes, active)
    ensures toSweep == SweepList(policy, nodes, active) && parentChildren == MarkGroups(nodes, active)
  {
    toSweep, parentChildren := [], map[];
    assert MarkGroups(nodes, []) == map[];
    for i := 0 to |active|
      invariant toSweep == SweepList(policy, nodes, active[..i]) && parentChildren == MarkGroups(nodes, active[..i])
    {
      MarkGroupsStep(nodes, active, i);
      assert active[..i + 1][..i] == active[..i];
      var node := nodes[active[i]];
      if Deferred(node) {
        continue;
      }
      var sweepScore := node.scores.retention;
      if policy.decisionFloor > 0.0 && |node.facts| == 0 && |node.decisions| == 0 && node.kind == NodeDecision {
        sweepScore := MaxReal(sweepScore, policy.decisionFloor);
      }
      if sweepScore < policy.lowRelevance {
        toSweep := toSweep + [active[i]];
      }
      if node.parent != NoID {
        parentChildren := parentChildren[node.parent := GroupAt(parentChildren, node.parent) + [active[i]]];
      }
    }
    assert active[..|active|] == active;
  }

  method FilterCompressible(nodes: Nodes, ids: seq<NodeID>) returns (out: seq<NodeID>)
    requires Known(nodes, ids)
    ensures out == Compressible(nodes, ids)
  {
    out := [];
    for i := 0 to |ids|
      invariant out == Compressible(nodes, ids[..i])
    {
      assert ids[..i + 1][..i] == ids[..i];
      if nodes[ids[i]].kind == NodeGoal || nodes[ids[i]].kind == NodeConstraint {
        continue;
      }
      out := out + [ids[i]];
    }
    assert ids[..|ids|] == ids;
  }

  method IsAllResolved(nodes: Nodes, ids: seq<NodeID>) returns (all: bool)
    requires Known(nodes, ids)
    ensures all == AllResolved(nodes, ids)
  {
    for i := 0 to |ids|
      invariant forall k :: 0 <= k < i ==> nodes[ids[k]].status != Active
    {
      if nodes[ids[i]].status == Active {
        return false;
      }
    }
    all := true;
  }

  /** One round of the compaction loop, on the tree. */
  method CompactBranch(gc: Collector, tree: Tree, ghost groups: Groups, children: seq<NodeID>, p: NodeID,
                       freed: int, records: seq<BranchRecord>)
    returns (freed': int, records': seq<BranchRecord>)
    requires Known(tree.nodes, children) && children == GroupAt(groups, p)
    modifies tree`nodes
    ensures Work(tree.nodes, freed', records') == CompactOne(gc, groups, Work(old(tree.nodes), freed, records), p)
    ensures old(tree.nodes).Keys <= tree.nodes.Keys
  {
    freed', records' := freed, records;
    var resolved := IsAllResolved(tree.nodes, children);
    if |children| < gc.policy.maxChildren && !resolved {
      return;
    }
    var compressible := FilterCompressible(tree.nodes, children);
    if |compressible| < MIN_BRANCH {
      return;
    }
    match gc.compress(Views(tree.nodes, compressible)) {
      case None =>
      case Some(c) =>
        var branch := c.(parent := p);
        var record := RecordOf(tree.nodes, compressible, branch);
        tree.ReplaceWithCompressed(p, compressible, branch);
        freed' := freed + (record.originalTokens - branch.tokens);
        records' := records + [record];
    }
  }

  /** The compaction loop. */
  method CompactBranches(gc: Collector, tree: Tree, groups: Groups, freed: int)
    returns (freed': int, records: seq<BranchRecord>, ghost ps: seq<NodeID>)
    requires forall p :: p in groups ==> Known(tree.nodes, groups[p])
    modifies tree`nodes
    ensures Enumerates(ps, groups.Keys)
    ensures Work(tree.nodes, freed', records) == CompactAll(gc, groups, Work(old(tree.nodes), freed, []), ps)
  {
    freed', records, ps := freed, [], [];
    var rest := groups.Keys;
    while rest != {}
      invariant NoDup(ps) && Elems(ps) == groups.Keys - rest && rest <= groups.Keys
      invariant old(tree.nodes).Keys <= tree.nodes.Keys
      invariant Work(tree.nodes, freed', records) == CompactAll(gc, groups, Work(old(tree.nodes), freed, []), ps)
      decreases rest
    {
      var p :| p in rest;
      freed', records := CompactBranch(gc, tree, groups, groups[p], p, freed', records);
      assert p !in Elems(ps);
      EnumeratesSnoc(ps, p);
      assert (ps + [p])[..|ps|] == ps;
      ps := ps + [p];
      rest := rest - {p};
    }
  }

  /** `Run`. The ghost result names the iteration orders its maps happened to have. */
  method Collect(gc: Collector, tree: Tree, query: Vec) returns (out: Outcome, ghost r: Run)
    modifies tree`nodes
    ensures r.gc == gc && r.st == old(tree.State()) && r.query == query && AreOrders(r)
    ensures out == Result(r) && tree.State() == old(tree.State()).(nodes := out.nodes)
  {
    ghost var before := tree.State();
    var active := tree.GetActiveNodes();
    assert forall i :: 0 <= i < |active| ==> active[i] in Elems(active);
    ScoreAll(gc.scorer, tree, active, tree.turnCount, query);
    ghost var marked := tree.nodes;
    assert marked == Marked(gc, before, query);
    var toSweep, parentChildren := Mark(gc.policy, tree.nodes, active);
    var freed := SweepAll(tree, toSweep);
    forall p | p in parentChildren ensures Known(tree.nodes, parentChildren[p]) {
      GroupsAreKnown(marked, active, p);
    }
    var records;
    ghost var ps;
    freed, records, ps := CompactBranches(gc, tree, parentChildren, freed);
    out := Outcome(tree.nodes, toSweep, freed, records);
    r := Run(gc, before, query, active, ps);
  }

  lemma GroupsAreKnown(nodes: Nodes, order: seq<NodeID>, p: NodeID)
    requires p in MarkGroups(nodes, order)
    ensures Known(nodes, MarkGroups(nodes, order)[p])
  {
    GroupOfMembers(nodes, order, p);
    var g := GroupOf(nodes, order, p);
    assert forall i :: 0 <= i < |g| ==> g[i] in g;
  }

  lemma ArchiveStep(nodes: Nodes, toSweep: seq<NodeID>, i: nat)
    requires i < |toSweep|
    ensures var id, before := toSweep[i], Archive(nodes, Elems(toSweep[..i]));
      Archive(nodes, Elems(toSweep[..i + 1]))
        == if id in before then before[id := before[id].(status := Archived)] else before
  {
    assert toSweep[..i + 1] == toSweep[..i] + [toSweep[i]];
    assert Elems(toSweep[..i + 1]) == Elems(toSweep[..i]) + {toSweep[i]};
  }

  /** The sweeping loop. */
  method SweepAll(tree: Tree, toSweep: seq<NodeID>) returns (freed: int)
    modifies tree`nodes
    ensures tree.nodes == Archive(old(tree.nodes), Elems(toSweep)) && freed == SeqTokens(old(tree.nodes), toSweep)
  {
    freed := 0;
    for i := 0 to |toSweep|
      invariant tree.nodes == Archive(old(tree.nodes), Elems(toSweep[..i]))
      invariant freed == SeqTokens(old(tree.nodes), toSweep[..i])
    {
      var id := toSweep[i];
      assert toSweep[..i + 1][..i] == toSweep[..i];
      ArchiveStep(old(tree.nodes), toSweep, i);
      tree.UpdateNodeStatus(id, Archived);
      if id in tree.nodes {
        freed := freed + tree.nodes[id].tokens;
      }
    }
    assert toSweep[..|toSweep|] == toSweep;
  }

  // ---------------------------------------------------------------- the built-in compressor

  function Summaries(nodes: seq<Node>): seq<string> {
    if nodes == [] then []
    else
      var n := nodes[|nodes| - 1];
      Summaries(nodes[..|nodes| - 1]) + if n.summary != "" then [n.summary] else []
  }

  function Core(parts: seq<string>): string {
    if |parts| > 3 then parts[0] + " ... " + parts[|parts| - 1] else Join(parts, " | ")
  }

  function VerifiedFactsPrefix(facts: seq<string>): string {
    if facts == [] then "" else "Verified facts (verbatim): " + Join(facts, ", ") + "\n\n"
  }

  /** What `SimpleCompressor` returns: `count` is the token counter, `stamp` the clock. */
  function SimpleBranch(lower: Lower, count: string -> nat, stamp: nat, nodes: seq<Node>): Node {
    var facts := Deduped(lower, AllFacts(nodes), DEFAULT_MAX_FACTS);
    var decisions := Deduped(lower, AllDecisions(nodes), DEFAULT_MAX_FACTS);
    var summary := VerifiedFactsPrefix(facts) + "Compressed branch: " + Core(Summaries(nodes));
    Node(CompressedID(stamp), NoID, NodeCompressedBranch, Compressed,
         "Compressed " + Decimal(|nodes|) + " nodes", summary, facts, decisions,
         AllIssues(nodes), [], AllEventRefs(nodes), [], count(summary), 0, ZERO_SCORES, [])
  }

  method SimpleCompress(lower: Lower, count: string -> nat, stamp: nat, nodes: seq<Node>) returns (c: Node)
    ensures c == SimpleBranch(lower, count, stamp, nodes) && IsBranchNode(c)
  {
    var facts, decisions := MergeFromNodes(lower, nodes, 0, 0);
    var issues, refs, parts: seq<string> := [], [], [];
    for i := 0 to |nodes|
      invariant issues == AllIssues(nodes[..i]) && refs == AllEventRefs(nodes[..i]) && parts == Summaries(nodes[..i])
    {
      assert nodes[..i + 1][..i] == nodes[..i];
      issues := issues + nodes[i].openIssues;
      refs := refs + nodes[i].eventRefs;
      if nodes[i].summary != "" {
        parts := parts + [nodes[i].summary];
      }
    }
    assert nodes[..|nodes|] == nodes;
    var core := JoinCore(parts);
    var prefix := "";
    if |facts| != 0 {
      var joined := StringsJoinComma(facts);
      prefix := "Verified facts (verbatim): " + joined + "\n\n";
    }
    var summary := prefix + "Compressed branch: " + core;
    c := Node(CompressedID(stamp), NoID, NodeCompressedBranch, Compressed,
              "Compressed " + Decimal(|nodes|) + " nodes", summary, facts, decisions,
              issues, [], refs, [], count(summary), 0, ZERO_SCORES, []);
  }

  method JoinCore(parts: seq<string>) returns (core: string)
    ensures core == Core(parts)
  {
    core := "";
    if |parts| > 3 {
      core := parts[0] + " ... " + parts[|parts| - 1];
    } else {
      for i := 0 to |parts|
        invariant core == Join(parts[..i], " | ")
      {
        JoinStep(parts, i, " | ");
        if i > 0 {
          core := core + " | ";
        }
        core := core + parts[i];
      }
      assert parts[..|parts|] == parts;
    }
  }
}
