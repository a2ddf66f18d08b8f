/** When the tokens a run reports as freed are the tokens that leave the active set. */
module FreedTokens {
  import opened Collections
  import opened Domain
  import opened StateTree
  import opened Scoring
  import opened GarbageCollector
  import opened Compaction
  import opened RunLaws
  import opened TwoRuns

  // ---------------------------------------------------------------- the exact condition, before the run

  /** The group under `p` is due, and the compressor will answer. */
  predicate IsPlanned(r: Run, p: NodeID) {
    IsDue(r, p) && r.gc.compress(Views(SweptNodes(r), Compressible(SweptNodes(r), GroupsOf(r)[p]))).Some?
  }

  lemma PlannedIff(r: Run, p: NodeID)
    ensures IsPlanned(r, p) <==> p in BlueprintFor(r).plans
    ensures IsPlanned(r, p) ==> BlueprintFor(r).members[p] == Compressible(SweptNodes(r), GroupsOf(r)[p])
  {
  }

  /** The nodes of the groups that are planned: what the run will fold. */
  predicate WillFold(r: Run, id: NodeID) {
    id in ActiveIds(r.st.nodes)
    && var n := r.st.nodes[id];
       !Deferred(n) && n.kind != NodeGoal && n.kind != NodeConstraint && n.parent != NoID && IsPlanned(r, n.parent)
  }

  /** The nodes that the run will both sweep and fold, and so count twice. */
  function CountedTwice(r: Run): set<NodeID> {
    set id | id in SweepOf(r) && WillFold(r, id)
  }

  /** The tokens of the branches that the compressor will answer with. */
  ghost function PlannedTokens(r: Run): int {
    BranchTokens(BlueprintFor(r), BlueprintFor(r).plans.Keys)
  }

  lemma FoldedIff(r: Run, id: NodeID)
    requires IsRun(r)
    ensures id in FoldedBy(Result(r)) <==> WillFold(r, id)
  {
    Closed(r);
    Marking(r);
    FoldedByRecords(SweptNodes(r), BlueprintFor(r), Result(r));
    if id in r.st.nodes {
      var p := r.st.nodes[id].parent;
      PlannedIff(r, p);
      Grouping(r, p);
      if p in GroupsOf(r) {
        CompressibleMembers(SweptNodes(r), GroupsOf(r)[p]);
      }
    }
  }

  lemma RecordsArePlanned(r: Run)
    requires IsRun(r)
    ensures RecordTokens(Result(r).records) == PlannedTokens(r)
  {
    Closed(r);
  }

  /** `TokensFreed` is the drop in active tokens exactly if the nodes that are sweepable and in a due
      group weigh as much as the branches that replace the due groups. Both sides can be read off the
      tree before the run. */
  lemma FreedIsDropIff(r: Run)
    requires IsRun(r)
    ensures Result(r).freed == ActiveTokens(r.st.nodes) - ActiveTokens(Result(r).nodes)
      <==> TokensOn(r.st.nodes, CountedTwice(r)) == PlannedTokens(r)
  {
    FreedVersusDrop(r);
    RecordsArePlanned(r);
    forall id ensures id in Elems(Result(r).swept) * FoldedBy(Result(r)) <==> id in CountedTwice(r) {
      FoldedIff(r, id);
    }
    assert Elems(Result(r).swept) * FoldedBy(Result(r)) == CountedTwice(r);
  }

  /** In particular, if no group is due. */
  lemma NothingDueNothingTwice(r: Run)
    requires IsRun(r) && forall p :: p in GroupsOf(r) ==> !IsDue(r, p)
    ensures Result(r).freed == ActiveTokens(r.st.nodes) - ActiveTokens(Result(r).nodes)
  {
    forall p ensures p !in BlueprintFor(r).plans {
      PlannedIff(r, p);
    }
    NoBranchTokens(BlueprintFor(r), BlueprintFor(r).plans.Keys);
    TokensNone(r.st.nodes, CountedTwice(r));
    FreedIsDropIff(r);
  }

  // ---------------------------------------------------------------- a run that counts twice

  function Leaf(sid: string, turn: nat): Node {
    Node(EventNodeID(sid, turn), RootID(sid), NodeBackground, Active, "", "", [], [], [], [], [], [], 10, turn,
         ZERO_SCORES, [])
  }

  /** An archived root with three active background nodes of ten tokens each. */
  function WideTree(sid: string): TreeState {
    var root := NewRoot(sid).(status := Archived, children := Leaves(sid));
    TreeState(sid, RootID(sid), map[
      RootID(sid) := root, EventNodeID(sid, 1) := Leaf(sid, 1), EventNodeID(sid, 2) := Leaf(sid, 2),
      EventNodeID(sid, 3) := Leaf(sid, 3)], 3)
  }

  function Leaves(sid: string): seq<NodeID> {
    [EventNodeID(sid, 1), EventNodeID(sid, 2), EventNodeID(sid, 3)]
  }

  /** A run of that tree with the default weights and threshold, a width limit of three, and a compressor
      that answers with a branch of one token. */
  ghost predicate IsWideRun(sid: string, branch: Node, r: Run) {
    && r.st == WideTree(sid) && r.query == [] && r.order == Leaves(sid) && r.ps == [RootID(sid)]
    && r.gc.policy.maxChildren == 3 && r.gc.policy.lowRelevance == 0.30
    && r.gc.scorer.weights == DEFAULT_WEIGHTS && r.gc.scorer.staleAfterTurns >= 0
    && (forall d :: r.gc.scorer.decay(d) <= 1.0)
    && (forall views :: r.gc.compress(views) == Some(branch))
    && IsBranchNode(branch) && branch.id.CompressedID? && branch.tokens == 1
  }

  lemma WideTreeIsWellFormed(sid: string)
    ensures WellFormed(WideTree(sid)) && ActiveIds(WideTree(sid).nodes) == Elems(Leaves(sid))
  {
    var st := WideTree(sid);
    LeavesDiffer(sid);
    forall id | id in st.nodes ensures GoodNode(st.nodes, st.turns, id) {
      if id == RootID(sid) {
        forall c | c in Leaves(sid) ensures GoodLink(st.nodes, id, c) {
          LeafIs(sid, c);
        }
      } else {
        assert st.nodes[id] == Leaf(sid, id.turn);
      }
    }
    WideActive(sid);
  }

  lemma LeavesDiffer(sid: string)
    ensures NoDup(Leaves(sid))
  {
  }

  lemma LeafIs(sid: string, id: NodeID)
    requires id in Leaves(sid)
    ensures id in WideTree(sid).nodes && WideTree(sid).nodes[id] == Leaf(sid, id.turn) && 0 < id.turn <= 3
  {
  }

  lemma WideActive(sid: string)
    ensures ActiveIds(WideTree(sid).nodes) == Elems(Leaves(sid))
  {
    var nodes := WideTree(sid).nodes;
    forall id ensures id in ActiveIds(nodes) <==> id in Elems(Leaves(sid)) {
      assert Leaves(sid)[0] in Elems(Leaves(sid)) && Leaves(sid)[1] in Elems(Leaves(sid))
          && Leaves(sid)[2] in Elems(Leaves(sid));
      if id in Elems(Leaves(sid)) {
        LeafIs(sid, id);
      }
    }
  }

  /** Under the default weights a background node without issues and dependents stays below 0.30. */
  lemma BackgroundScoresLow(sc: Scorer, n: Node, turn: nat, twins: nat)
    requires sc.weights == DEFAULT_WEIGHTS && sc.staleAfterTurns >= 0 && sc.decay(turn - n.turn) <= 1.0
    requires n.kind == NodeBackground && n.openIssues == [] && n.turn <= turn
    ensures ScoreOf(sc, n, turn, twins, 0, []).retention < 0.30
  {
    var c := Components(sc, n, turn, twins, 0, []);
    StalePenaltyGrows(sc, 0, turn - n.turn);
    assert c.recency <= 1.0 && c.typePriority == 0.20 && c.dependencyWeight == 0.0 && c.unresolvedBoost == 0.0;
    assert c.semantic == 0.0 && c.redundancy >= 0.0 && c.resolvedPenalty >= 0.0 && c.sizePenalty >= 0.0;
  }

  lemma LeavesAre(sid: string, id: NodeID)
    ensures id in Elems(Leaves(sid)) <==> id in Leaves(sid)
    ensures id in Leaves(sid) ==>
              id in WideTree(sid).nodes && WideTree(sid).nodes[id] == Leaf(sid, id.turn) && id.turn <= 3
    ensures NoDup(Leaves(sid)) && |Elems(Leaves(sid))| == 3
  {
    LeavesDiffer(sid);
    EnumerationSize(Leaves(sid));
    if id in Leaves(sid) {
      LeafIs(sid, id);
    }
  }

  lemma NobodyDepends(sid: string, id: NodeID)
    ensures Dependents(WideTree(sid).nodes, ActiveIds(WideTree(sid).nodes), id) == {}
  {
  }

  /** Every leaf scores below the threshold. */
  lemma LeafIsSweepable(sid: string, branch: Node, r: Run, id: NodeID)
    requires IsWideRun(sid, branch, r) && id in Leaves(sid)
    ensures id in MarkedNodes(r) && Sweepable(r.gc.policy, MarkedNodes(r)[id])
  {
    LeavesAre(sid, id);
    WideTreeIsWellFormed(sid);
    NobodyDepends(sid, id);
    var nodes, ids := r.st.nodes, ActiveIds(r.st.nodes);
    var twins := |Twins(r.gc.scorer, nodes, ids, Title(r.gc.scorer, nodes[id]))|;
    BackgroundScoresLow(r.gc.scorer, nodes[id], r.st.turns, twins);
    assert ScoreNode(r.gc.scorer, nodes, ids, id, r.st.turns, [])
      == ScoreOf(r.gc.scorer, nodes[id], r.st.turns, twins, 0, []);
  }

  lemma WideOrders(sid: string, branch: Node, r: Run)
    requires IsWideRun(sid, branch, r)
    ensures AreOrders(r) && RootID(sid) in GroupsOf(r)
  {
    WideTreeIsWellFormed(sid);
    LeavesDiffer(sid);
    WideParents(sid, branch, r);
    assert Elems(r.ps) == {RootID(sid)};
  }

  lemma WideParents(sid: string, branch: Node, r: Run)
    requires IsWideRun(sid, branch, r)
    ensures Parents(MarkedNodes(r), r.order) == {RootID(sid)}
  {
    var marked := MarkedNodes(r);
    forall id | id in Leaves(sid)
      ensures id in marked && InGroup(marked[id], marked[id].parent) && marked[id].parent == RootID(sid)
    {
      LeafIs(sid, id);
    }
    assert Leaves(sid)[0] in Leaves(sid);
  }

  lemma WideGroup(sid: string, branch: Node, r: Run)
    requires IsWideRun(sid, branch, r) && AreOrders(r) && RootID(sid) in GroupsOf(r)
    ensures var g := GroupsOf(r)[RootID(sid)];
      NoDup(g) && |g| == 3 && forall id :: id in g <==> id in Leaves(sid)
  {
    Grouping(r, RootID(sid));
    WideTreeIsWellFormed(sid);
    var g := GroupsOf(r)[RootID(sid)];
    forall id ensures id in g <==> id in Leaves(sid) {
      LeavesAre(sid, id);
      assert id in Elems(Leaves(sid)) <==> id in ActiveIds(r.st.nodes);
    }
    LeavesAre(sid, RootID(sid));
    SameEnumerations(g, Leaves(sid));
  }

  /** Filtering out goals and constraints keeps a group of leaves whole. */
  lemma LeavesAreCompressible(sid: string, nodes: Nodes, g: seq<NodeID>)
    requires NoDup(g) && |g| == 3 && forall id :: id in g ==> id in nodes && nodes[id].kind == NodeBackground
    ensures |Compressible(nodes, g)| == 3
  {
    CompressibleMembers(nodes, g);
    SameEnumerations(g, Compressible(nodes, g));
  }

  lemma DueIf(r: Run, p: NodeID, branch: Node)
    requires p in GroupsOf(r) && |GroupsOf(r)[p]| >= r.gc.policy.maxChildren
    requires |Compressible(SweptNodes(r), GroupsOf(r)[p])| >= MIN_BRANCH
      && forall views :: r.gc.compress(views) == Some(branch)
    ensures IsPlanned(r, p)
  {
  }

  lemma OnePlan(r: Run, p: NodeID, branch: Node)
    requires GroupsOf(r).Keys == {p} && IsPlanned(r, p) && forall views :: r.gc.compress(views) == Some(branch)
    ensures BlueprintFor(r).plans == map[p := branch.(parent := p)]
  {
    PlannedIff(r, p);
  }

  lemma OneBranchIsFresh(base: Nodes, bp: Blueprint, p: NodeID, branch: Node)
    requires bp.plans == map[p := branch] && IsBranchNode(branch) && branch.id !in base
    ensures Fresh(base, bp)
  {
  }

  lemma LeavesStayBackground(sid: string, branch: Node, r: Run, id: NodeID)
    requires IsWideRun(sid, branch, r) && AreOrders(r) && id in Leaves(sid)
    ensures id in SweptNodes(r) && SweptNodes(r)[id].kind == NodeBackground
  {
    Marking(r);
    LeavesAre(sid, id);
  }

  lemma WideIsDue(sid: string, branch: Node, r: Run)
    requires IsWideRun(sid, branch, r) && AreOrders(r) && RootID(sid) in GroupsOf(r)
    ensures IsPlanned(r, RootID(sid))
  {
    WideGroup(sid, branch, r);
    var g := GroupsOf(r)[RootID(sid)];
    forall id | id in g ensures id in SweptNodes(r) && SweptNodes(r)[id].kind == NodeBackground {
      LeavesStayBackground(sid, branch, r, id);
    }
    LeavesAreCompressible(sid, SweptNodes(r), g);
    DueIf(r, RootID(sid), branch);
  }

  lemma WideBlueprint(sid: string, branch: Node, r: Run)
    requires IsWideRun(sid, branch, r)
    ensures AreOrders(r) && BlueprintFor(r).plans == map[RootID(sid) := branch.(parent := RootID(sid))]
  {
    WideOrders(sid, branch, r);
    WideIsDue(sid, branch, r);
    OnePlan(r, RootID(sid), branch);
  }

  lemma BranchIsNew(sid: string, branch: Node, r: Run)
    requires IsWideRun(sid, branch, r) && AreOrders(r)
    ensures branch.id !in SweptNodes(r)
  {
    SweptKeys(r);
  }

  lemma SweptKeys(r: Run)
    ensures SweptNodes(r).Keys == r.st.nodes.Keys
  {
    assert MarkedNodes(r).Keys == r.st.nodes.Keys;
  }

  lemma WideIsRun(sid: string, branch: Node, r: Run)
    requires IsWideRun(sid, branch, r)
    ensures IsRun(r)
  {
    WideTreeIsWellFormed(sid);
    WideBlueprint(sid, branch, r);
    BranchIsNew(sid, branch, r);
    OneBranchIsFresh(SweptNodes(r), BlueprintFor(r), RootID(sid), branch.(parent := RootID(sid)));
  }

  // ---------------------------------------------------------------- its tokens

  lemma LeafTokens(sid: string)
    ensures TokensOn(WideTree(sid).nodes, Elems(Leaves(sid))) == 30
  {
    var nodes, ids := WideTree(sid).nodes, Leaves(sid);
    TokensNone(nodes, {});
    TokensInsert(nodes, {}, ids[0]);
    TokensInsert(nodes, {ids[0]}, ids[1]);
    TokensInsert(nodes, {ids[0], ids[1]}, ids[2]);
    assert {} + {ids[0]} == {ids[0]} && {ids[0]} + {ids[1]} == {ids[0], ids[1]};
    assert {ids[0], ids[1]} + {ids[2]} == Elems(ids);
  }

  lemma OneBranchTokens(bp: Blueprint, p: NodeID, branch: Node)
    requires bp.plans == map[p := branch]
    ensures BranchTokens(bp, bp.plans.Keys) == branch.tokens
  {
    NoBranchTokens(bp, {});
    StepBranchTokens(bp, {}, p);
    assert {} + {p} == bp.plans.Keys;
  }

  lemma AllLeavesGoTwice(sid: string, branch: Node, r: Run)
    requires IsWideRun(sid, branch, r) && IsRun(r)
    ensures Elems(Result(r).swept) == Elems(Leaves(sid)) && FoldedBy(Result(r)) == Elems(Leaves(sid))
  {
    WideTreeIsWellFormed(sid);
    ActiveAfterRun(r);
    forall id | id in Elems(Leaves(sid)) ensures id in Elems(Result(r).swept) && id in FoldedBy(Result(r)) {
      LeafGoesTwice(sid, branch, r, id);
    }
    SameBetween(Elems(Leaves(sid)), Elems(Result(r).swept), FoldedBy(Result(r)));
  }

  lemma SameBetween<T>(all: set<T>, a: set<T>, b: set<T>)
    requires a + b <= all && forall x :: x in all ==> x in a && x in b
    ensures a == all && b == all
  {
  }

  lemma LeafGoesTwice(sid: string, branch: Node, r: Run, id: NodeID)
    requires IsWideRun(sid, branch, r) && IsRun(r) && id in Leaves(sid)
    ensures id in Elems(Result(r).swept) && id in FoldedBy(Result(r))
  {
    LeavesAre(sid, id);
    LeafIsSweepable(sid, branch, r, id);
    Marking(r);
    WideOrders(sid, branch, r);
    WideIsDue(sid, branch, r);
    FoldedIff(r, id);
  }

  /** A run that sweeps exactly the nodes it folds. */
  lemma DoubleCount(r: Run, ids: set<NodeID>)
    requires IsRun(r) && Elems(Result(r).swept) == ids && FoldedBy(Result(r)) == ids
    ensures Result(r).freed == 2 * TokensOn(r.st.nodes, ids) - RecordTokens(Result(r).records)
    ensures ActiveTokens(r.st.nodes) - ActiveTokens(Result(r).nodes) == TokensOn(r.st.nodes, ids)
  {
    assert ids + ids == ids && ids * ids == ids;
    TokensFreedIs(r);
    FreedVersusDrop(r);
  }

  lemma WideRecords(sid: string, branch: Node, r: Run)
    requires IsWideRun(sid, branch, r) && IsRun(r)
    ensures RecordTokens(Result(r).records) == 1
  {
    WideBlueprint(sid, branch, r);
    RecordsArePlanned(r);
    OneBranchTokens(BlueprintFor(r), RootID(sid), branch.(parent := RootID(sid)));
  }

  /** A run on which freed tokens and the drop in active tokens differ: all three leaves are swept and
      then folded. The drop is 30; the run reports 59. */
  lemma FreedCanExceedDrop(sid: string, branch: Node, r: Run)
    requires IsWideRun(sid, branch, r)
    ensures IsRun(r) && RecordTokens(Result(r).records) == 1
    ensures Result(r).freed == 59 && ActiveTokens(r.st.nodes) - ActiveTokens(Result(r).nodes) == 30
  {
    WideIsRun(sid, branch, r);
    WideRecords(sid, branch, r);
    AllLeavesGoTwice(sid, branch, r);
    DoubleCount(r, Elems(Leaves(sid)));
    LeafTokens(sid);
  }

  /** There is such a run. */
  lemma SomeWideRun(sid: string) returns (branch: Node, r: Run)
    ensures IsWideRun(sid, branch, r)
  {
    branch := Node(CompressedID(1), NoID, NodeCompressedBranch, Compressed, "", "", [], [], [], [], [], [], 1, 0,
                   ZERO_SCORES, []);
    var scorer := Scorer(DEFAULT_WEIGHTS, 20, 500, (d: int) => 1.0, (x: real) => x, (c: char) => c);
    var policy := Policy(8000, 10, 3, 0.30, 0.20, 0, 0.0);
    var answer := branch;
    r := Run(Collector(policy, scorer, (views: seq<Node>) => Some(answer)), WideTree(sid), [], Leaves(sid),
             [RootID(sid)]);
  }
}
