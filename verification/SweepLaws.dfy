/** Which nodes a run sweeps and which it folds, in terms of what the nodes carry and how they score. */
module SweepLaws {
  import opened Collections
  import opened Domain
  import opened VectorMath
  import opened StateTree
  import opened Scoring
  import opened GarbageCollector
  import opened Compaction
  import opened RunLaws
  import opened TwoRuns
  import opened FreedTokens

  // ---------------------------------------------------------------- sweeping

  /** The score that a run gives a node before it looks at it: among the active nodes, at the tree's
      turn, against the run's query vector. */
  function FreshRetention(r: Run, id: NodeID): real
    requires id in r.st.nodes
  {
    ScoreNode(r.gc.scorer, r.st.nodes, ActiveIds(r.st.nodes), id, r.st.turns, r.query).retention
  }

  /** A node is swept exactly if it is active, carries neither facts nor decisions, and scores below the
      threshold; a decision is spared as well if there is a positive floor at the threshold or above it.
      No kind of node is exempt. */
  lemma SweptIff(r: Run, id: NodeID)
    requires AreOrders(r)
    ensures id in Result(r).swept <==>
      id in r.st.nodes
      && var n := r.st.nodes[id];
         n.status == Active && n.facts == [] && n.decisions == [] && FreshRetention(r, id) < r.gc.policy.lowRelevance
         && (n.kind == NodeDecision && r.gc.policy.decisionFloor > 0.0 ==>
               r.gc.policy.decisionFloor < r.gc.policy.lowRelevance)
  {
    Marking(r);
    if id in r.st.nodes {
      MarkedAt(r, id);
      SweepableIff(r.gc.policy, MarkedNodes(r)[id]);
    }
  }

  lemma MarkedAt(r: Run, id: NodeID)
    requires id in r.st.nodes
    ensures id in MarkedNodes(r)
    ensures MarkedNodes(r)[id] == r.st.nodes[id].(scores := MarkedNodes(r)[id].scores)
    ensures r.st.nodes[id].status == Active ==> MarkedNodes(r)[id].scores.retention == FreshRetention(r, id)
  {
  }

  lemma SweepableIff(policy: Policy, n: Node)
    ensures Sweepable(policy, n) <==>
      n.facts == [] && n.decisions == [] && n.scores.retention < policy.lowRelevance
      && (n.kind == NodeDecision && policy.decisionFloor > 0.0 ==> policy.decisionFloor < policy.lowRelevance)
  {
  }

  /** So a goal, the root included, that scores below the threshold ends archived. */
  lemma LowGoalsAreArchived(r: Run, id: NodeID)
    requires IsRun(r) && id in ActiveIds(r.st.nodes) && (id == r.st.root || r.st.nodes[id].kind == NodeGoal)
    requires r.st.nodes[id].facts == [] && r.st.nodes[id].decisions == [] && r.st.nodes[id].kind != NodeDecision
    requires FreshRetention(r, id) < r.gc.policy.lowRelevance
    ensures id in Result(r).swept && id in Result(r).nodes && Result(r).nodes[id].status == Archived
  {
    SweptIff(r, id);
    OldNodesEvolve(r, id);
  }

  /** Under the default weights and threshold that is the fate of every goal without facts, open issues,
      dependents and similarity, once its recency has decayed below 0.4. */
  lemma OldGoalsAreArchived(r: Run, id: NodeID)
    requires IsRun(r) && id in ActiveIds(r.st.nodes) && r.st.nodes[id].kind == NodeGoal
    requires r.gc.scorer.weights == DEFAULT_WEIGHTS && r.gc.policy.lowRelevance == 0.30
    requires r.gc.scorer.staleAfterTurns >= 0 && r.query == []
    requires var n := r.st.nodes[id];
      n.facts == [] && n.decisions == [] && n.openIssues == [] && r.gc.scorer.decay(r.st.turns - n.turn) < 0.4
    requires forall o :: o in ActiveIds(r.st.nodes) ==> id !in r.st.nodes[o].dependencies
    ensures id in Result(r).swept && id in Result(r).nodes && Result(r).nodes[id].status == Archived
  {
    assert Dependents(r.st.nodes, ActiveIds(r.st.nodes), id) == {};
    OldGoalScoresLow(r.gc.scorer, r.st.nodes[id], r.st.turns,
                     |Twins(r.gc.scorer, r.st.nodes, ActiveIds(r.st.nodes), Title(r.gc.scorer, r.st.nodes[id]))|);
    LowGoalsAreArchived(r, id);
  }

  lemma OldGoalScoresLow(sc: Scorer, n: Node, turn: nat, twins: nat)
    requires sc.weights == DEFAULT_WEIGHTS && sc.staleAfterTurns >= 0 && sc.decay(turn - n.turn) < 0.4
    requires n.kind == NodeGoal && n.openIssues == [] && n.status == Active
    ensures ScoreOf(sc, n, turn, twins, 0, []).retention < 0.30
  {
    var c := Components(sc, n, turn, twins, 0, []);
    PenaltiesAreNonNegative(sc, turn - n.turn, n.tokens, twins);
    assert c.typePriority == 1.0 && c.dependencyWeight == 0.0 && c.unresolvedBoost == 0.0 && c.semantic == 0.0;
  }

  lemma PenaltiesAreNonNegative(sc: Scorer, dist: int, tokens: int, twins: nat)
    requires sc.staleAfterTurns >= 0
    ensures StalePenalty(sc, dist) >= 0.0 && SizePenalty(sc, tokens) >= 0.0 && Redundancy(twins) >= 0.0
  {
    StalePenaltyGrows(sc, Min(dist, 0), dist);
    if sc.maxTokensPerNode > 0 && tokens > sc.maxTokensPerNode {
      QuotientGrows(sc.maxTokensPerNode, tokens, sc.maxTokensPerNode);
    }
  }

  // ---------------------------------------------------------------- folding

  /** The active nodes under `p` that carry neither facts nor decisions. */
  function Mates(nodes: Nodes, p: NodeID): set<NodeID> {
    set id | id in ActiveIds(nodes) && nodes[id].facts == [] && nodes[id].decisions == [] && nodes[id].parent == p
  }

  predicate CanFold(n: Node) {
    n.kind != NodeGoal && n.kind != NodeConstraint
  }

  lemma GroupIsMates(r: Run, p: NodeID)
    requires AreOrders(r) && p != NoID
    ensures p in GroupsOf(r) <==> Mates(r.st.nodes, p) != {}
    ensures p in GroupsOf(r) ==>
      NoDup(GroupsOf(r)[p]) && Elems(GroupsOf(r)[p]) == Mates(r.st.nodes, p)
      && |GroupsOf(r)[p]| == |Mates(r.st.nodes, p)|
  {
    Grouping(r, p);
    if Mates(r.st.nodes, p) != {} {
      var id :| id in Mates(r.st.nodes, p);
      MateHasGroup(r, p, id);
    }
    if p in GroupsOf(r) {
      GroupMembers(r.st.nodes, GroupsOf(r)[p], p);
    }
  }

  lemma MateHasGroup(r: Run, p: NodeID, id: NodeID)
    requires AreOrders(r) && p != NoID && id in Mates(r.st.nodes, p)
    ensures p in GroupsOf(r)
  {
    Marking(r);
    MarkedAt(r, id);
    assert id in r.order && InGroup(MarkedNodes(r)[id], p);
    assert p in Parents(MarkedNodes(r), r.order);
  }

  lemma GroupMembers(nodes: Nodes, group: seq<NodeID>, p: NodeID)
    requires group != [] && NoDup(group) && p != NoID
    requires forall id :: id in group <==> id in nodes && nodes[id].status == Active && InGroup(nodes[id], p)
    ensures Mates(nodes, p) != {} && Elems(group) == Mates(nodes, p) && |group| == |Mates(nodes, p)|
  {
    forall id ensures id in Elems(group) <==> id in Mates(nodes, p) {
      assert id in Elems(group) <==> id in group;
    }
    EnumerationSize(group);
    assert group[0] in Elems(group);
  }

  lemma FoldableOfGroup(r: Run, p: NodeID)
    requires AreOrders(r) && p != NoID && p in GroupsOf(r)
    ensures |Compressible(SweptNodes(r), GroupsOf(r)[p])|
         == |set id | id in Mates(r.st.nodes, p) && CanFold(r.st.nodes[id])|
  {
    GroupIsMates(r, p);
    forall id | id in r.st.nodes ensures id in SweptNodes(r) && SweptNodes(r)[id].kind == r.st.nodes[id].kind {
      MarkedAt(r, id);
    }
    FoldableMembers(r.st.nodes, SweptNodes(r), GroupsOf(r)[p], Mates(r.st.nodes, p));
  }

  lemma FoldableMembers(nodes: Nodes, swept: Nodes, group: seq<NodeID>, mates: set<NodeID>)
    requires NoDup(group) && Elems(group) == mates && mates <= nodes.Keys
    requires forall id :: id in nodes ==> id in swept && swept[id].kind == nodes[id].kind
    ensures |Compressible(swept, group)| == |set id | id in mates && CanFold(nodes[id])|
  {
    var c := Compressible(swept, group);
    CompressibleMembers(swept, group);
    EnumerationSize(c);
    forall id ensures id in Elems(c) <==> id in mates && CanFold(nodes[id]) {
      assert id in group <==> id in Elems(group);
      assert id in c <==> id in Elems(c);
    }
    assert Elems(c) == set id | id in mates && CanFold(nodes[id]);
  }

  /** If the compressor always answers, a node is folded exactly if it is active, carries neither facts
      nor decisions, is neither goal nor constraint, and its mates under the same parent are as many as
      the width limit or have all been swept, and at least three of them can be folded. */
  lemma FoldedIffDue(r: Run, id: NodeID)
    requires IsRun(r) && NeverFails(r.gc)
    ensures id in FoldedBy(Result(r)) <==>
      id in ActiveIds(r.st.nodes) && r.st.nodes[id].facts == [] && r.st.nodes[id].decisions == []
      && CanFold(r.st.nodes[id]) && r.st.nodes[id].parent != NoID
      && var mates := Mates(r.st.nodes, r.st.nodes[id].parent);
         (|mates| >= r.gc.policy.maxChildren || mates <= Elems(Result(r).swept))
         && |set m | m in mates && CanFold(r.st.nodes[m])| >= 3
  {
    FoldedIff(r, id);
    if id in ActiveIds(r.st.nodes) && r.st.nodes[id].parent != NoID {
      var p := r.st.nodes[id].parent;
      DueIsPlanned(r, p);
      PlannedIff(r, p);
      GroupIsMates(r, p);
      if p in GroupsOf(r) {
        FoldableOfGroup(r, p);
        AllResolvedIff(r, p);
      }
    }
  }

  lemma AllResolvedIff(r: Run, p: NodeID)
    requires AreOrders(r) && p != NoID && p in GroupsOf(r)
    ensures AllResolved(SweptNodes(r), GroupsOf(r)[p]) <==> Mates(r.st.nodes, p) <= Elems(Result(r).swept)
  {
    Marking(r);
    GroupIsMates(r, p);
    forall id | id in Mates(r.st.nodes, p)
      ensures id in GroupsOf(r)[p] && id in SweptNodes(r)
      ensures SweptNodes(r)[id].status != Active <==> id in Elems(Result(r).swept)
    {
      assert id in Elems(GroupsOf(r)[p]);
    }
    assert forall id :: id in GroupsOf(r)[p] ==> id in Elems(GroupsOf(r)[p]);
  }

  /** The new branch hangs off the parent of the nodes it is made of and takes their place among its
      children: they are archived and unlinked, all other children stay. */
  lemma BranchTakesTheirPlace(r: Run, rec: BranchRecord)
    requires IsRun(r) && rec in Result(r).records
    ensures var nodes := Result(r).nodes;
      && rec.parent in r.st.nodes && rec.parent in nodes && rec.branch in nodes && rec.branch !in r.st.nodes
      && nodes[rec.branch].parent == rec.parent && rec.branch in nodes[rec.parent].children
      && (forall c :: c in r.st.nodes[rec.parent].children ==>
            (c in nodes[rec.parent].children <==> c !in rec.originals))
      && (forall id :: id in rec.originals ==> id in nodes && nodes[id].status == Archived && id in r.st.nodes)
  {
    Closed(r);
    var base, bp := SweptNodes(r), BlueprintFor(r);
    var p := RecordsHavePlans(r, rec);
    MarkedKeys(r);
    PlanIsFresh(base, bp, p);
    ParentAfter(base, bp, Result(r).nodes, p);
    forall id | id in rec.originals
      ensures id in base && id in Result(r).nodes && Result(r).nodes[id].status == Archived
    {
      MemberAfter(base, bp, Result(r).nodes, p, id);
    }
  }

  /** The branch is what the compressor answered for its originals, hung under their parent; and the
      record adds up the tokens of both sides. */
  lemma RecordSays(r: Run, rec: BranchRecord)
    requires IsRun(r) && rec in Result(r).records
    ensures var answer := r.gc.compress(Views(SweptNodes(r), rec.originals));
      && answer.Some? && rec.branch in Result(r).nodes
      && Result(r).nodes[rec.branch] == answer.value.(parent := rec.parent)
      && rec.compressedTokens == Result(r).nodes[rec.branch].tokens
      && rec.originalTokens == TokensOn(r.st.nodes, Elems(rec.originals))
  {
    Closed(r);
    var base, bp := SweptNodes(r), BlueprintFor(r);
    var p := RecordsHavePlans(r, rec);
    PlanIsAnswer(r.gc, base, GroupsOf(r), p);
    PlanIsFresh(base, bp, p);
    ParentAfter(base, bp, Result(r).nodes, p);
    OriginalTokens(base, bp, p);
    MarkedKeys(r);
    TokensAgree(r.st.nodes, base, Elems(rec.originals));
  }

  lemma PlanIsAnswer(gc: Collector, base: Nodes, groups: Groups, p: NodeID)
    requires p in BlueprintOf(gc, base, groups).plans
    ensures var bp := BlueprintOf(gc, base, groups);
      && p in bp.members && gc.compress(Views(base, bp.members[p])).Some?
      && bp.plans[p] == gc.compress(Views(base, bp.members[p])).value.(parent := p)
  {
  }

  lemma OriginalTokens(base: Nodes, bp: Blueprint, p: NodeID)
    requires Sound(base, bp) && p in bp.plans
    ensures Record(base, bp, p).originalTokens == TokensOn(base, Elems(bp.members[p]))
    ensures Elems(bp.members[p]) <= base.Keys
  {
    SeqTokensIsSum(base, bp.members[p]);
  }

  lemma PlanIsFresh(base: Nodes, bp: Blueprint, p: NodeID)
    requires Sound(base, bp) && Fresh(base, bp) && p in bp.plans
    ensures p in base && bp.plans[p].id !in base && bp.plans[p].id !in bp.members[p] && bp.plans[p].parent == p
  {
  }

  lemma MarkedKeys(r: Run)
    ensures SweptNodes(r).Keys == r.st.nodes.Keys
    ensures forall id :: id in r.st.nodes ==>
      SweptNodes(r)[id].children == r.st.nodes[id].children && SweptNodes(r)[id].tokens == r.st.nodes[id].tokens
  {
    forall id | id in r.st.nodes
      ensures SweptNodes(r)[id].children == r.st.nodes[id].children && SweptNodes(r)[id].tokens == r.st.nodes[id].tokens
    {
      MarkedAt(r, id);
    }
  }

  lemma ParentAfter(base: Nodes, bp: Blueprint, nodes: Nodes, p: NodeID)
    requires bp.plans.Keys <= bp.members.Keys && CompactedTo(base, bp, bp.plans.Keys, nodes)
    requires p in bp.plans && p in base && bp.plans[p].id !in base && bp.plans[p].id !in bp.members[p]
    ensures p in nodes && bp.plans[p].id in nodes && nodes[bp.plans[p].id] == bp.plans[p]
    ensures bp.plans[p].id in nodes[p].children
    ensures forall c :: c in base[p].children ==> (c in nodes[p].children <==> c !in bp.members[p])
  {
    assert nodes[p] == Touched(base, bp, bp.plans.Keys, p);
    ChildrenSwapped(base[p].children, bp.members[p], bp.plans[p].id);
  }

  lemma ChildrenSwapped(children: seq<NodeID>, members: seq<NodeID>, branch: NodeID)
    requires branch !in members
    ensures var after := Without(children, Elems(members)) + [branch];
      branch in after && forall c :: c in children ==> (c in after <==> c !in members)
  {
    WithoutMembers(children, Elems(members));
  }

  lemma MemberAfter(base: Nodes, bp: Blueprint, nodes: Nodes, p: NodeID, id: NodeID)
    requires Sound(base, bp) && CompactedTo(base, bp, bp.plans.Keys, nodes) && p in bp.plans && id in bp.members[p]
    ensures id in base && id in nodes && nodes[id].status == Archived
  {
    assert Folds(base, bp, bp.plans.Keys, id);
    assert nodes[id] == Touched(base, bp, bp.plans.Keys, id);
  }
}
