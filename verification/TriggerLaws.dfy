/** When garbage collection starts, in terms of the limits of the policy. */
module TriggerLaws {
  import opened Collections
  import opened Domain
  import opened StateTree
  import opened GarbageCollector
  import opened CollectorAtWork

  // ---------------------------------------------------------------- the limits

  /** The budget that counts: the requested one if it is positive, else the policy's. */
  function LimitFor(policy: Policy, requested: int): int {
    if requested > 0 then requested else policy.maxPromptTokens
  }

  /** A budget that is not positive sets no limit. */
  predicate WithinTokens(policy: Policy, estimated: int, budget: int) {
    && (budget > 0 ==> estimated <= budget)
    && (budget > 0 && 0.0 < policy.headroom < 1.0 ==> estimated as real <= budget as real * policy.headroom)
  }

  /** No walk along child links from the root is longer than the limit. */
  ghost predicate DepthWithin(st: TreeState, limit: int) {
    limit >= 0 && forall path :: IsChain(st, path) && path[0] == st.root ==> |path| - 1 <= limit
  }

  /** No node has more children than the limit. */
  ghost predicate WidthWithin(nodes: Nodes, limit: int) {
    limit >= 0 && forall id :: id in nodes ==> |nodes[id].children| <= limit
  }

  /** The average retention of the active nodes, if there are any, is not below the threshold. */
  ghost predicate RelevantEnough(policy: Policy, nodes: Nodes) {
    ActiveIds(nodes) != {} ==>
      RealSum(map id | id in ActiveIds(nodes) :: nodes[id].scores.retention)
        >= policy.lowRelevance * |ActiveIds(nodes)| as real
  }

  ghost predicate WithinLimits(policy: Policy, st: TreeState, estimated: int, budget: int) {
    && WithinTokens(policy, estimated, budget)
    && (policy.maxActiveNodes > 0 ==> |ActiveIds(st.nodes)| <= policy.maxActiveNodes)
    && DepthWithin(st, policy.maxTreeDepth) && WidthWithin(st.nodes, policy.maxChildren)
    && RelevantEnough(policy, st.nodes)
  }

  // ---------------------------------------------------------------- one limit at a time

  lemma FloorBound(x: real, n: int)
    ensures n <= x.Floor <==> n as real <= x
  {
  }

  lemma TokensIff(policy: Policy, estimated: int, budget: int)
    ensures WithinTokens(policy, estimated, budget) <==>
      !(budget > 0 && estimated > budget)
      && !(0.0 < policy.headroom < 1.0 && budget > 0 && estimated > (budget as real * policy.headroom).Floor)
  {
    FloorBound(budget as real * policy.headroom, estimated);
  }

  lemma DepthIff(st: TreeState, limit: int)
    requires WellFormed(st)
    ensures Depth(st, st.root, 0) <= limit <==> DepthWithin(st, limit)
  {
    if st.root in st.nodes {
      var deepest := SomeChainIsDeep(st, st.root, 0);
      assert |deepest| - 1 == Depth(st, st.root, 0);
    }
    forall path | IsChain(st, path) && path[0] == st.root ensures |path| - 1 <= Depth(st, st.root, 0) {
      ChainsAreShort(st, path, 0);
    }
  }

  lemma WidthIff(nodes: Nodes, w: nat, limit: int)
    requires Widest(nodes, nodes.Keys, w)
    ensures w <= limit <==> WidthWithin(nodes, limit)
  {
    if w > 0 {
      var id :| id in nodes.Keys && |nodes[id].children| == w;
    }
  }

  lemma ShapeIff(policy: Policy, st: TreeState, s: TreeStats)
    requires WellFormed(st) && AreStats(st, s)
    ensures DepthWithin(st, policy.maxTreeDepth) <==> s.maxDepth <= policy.maxTreeDepth
    ensures WidthWithin(st.nodes, policy.maxChildren) <==> s.maxWidth <= policy.maxChildren
  {
    DepthIff(st, policy.maxTreeDepth);
    WidthIff(st.nodes, s.maxWidth, policy.maxChildren);
  }

  lemma QuotientIff(total: real, n: nat, limit: real)
    requires n > 0
    ensures total / n as real < limit <==> total < limit * n as real
  {
    assert total / n as real * n as real == total;
  }

  lemma RelevanceIff(policy: Policy, nodes: Nodes)
    ensures RelevantEnough(policy, nodes) <==> !AverageBelow(nodes, policy.lowRelevance)
  {
    var ids := ActiveIds(nodes);
    assert (map id | id in ids && id in nodes :: nodes[id].scores.retention)
        == map id | id in ids :: nodes[id].scores.retention;
    if ids != {} {
      QuotientIff(RetentionOn(nodes, ids), |ids|, policy.lowRelevance);
    }
  }

  // ---------------------------------------------------------------- the trigger

  /** A run is started for token pressure exactly if there is a positive budget below the estimate. */
  lemma PressureIff(policy: Policy, nodes: Nodes, s: TreeStats, estimated: int, requested: int)
    ensures Trigger(policy, nodes, s, estimated, requested) == TokenPressure
      <==> 0 < LimitFor(policy, requested) < estimated
  {
  }

  /** No run is started exactly if no trigger fires. */
  lemma QuietParts(policy: Policy, nodes: Nodes, s: TreeStats, estimated: int, requested: int)
    ensures var budget := LimitFor(policy, requested);
      Trigger(policy, nodes, s, estimated, requested) == NoReason
      <==> WithinTokens(policy, estimated, budget)
           && (policy.maxActiveNodes > 0 ==> |ActiveIds(nodes)| <= policy.maxActiveNodes)
           && s.maxDepth <= policy.maxTreeDepth && s.maxWidth <= policy.maxChildren
           && !AverageBelow(nodes, policy.lowRelevance)
  {
    TokensIff(policy, estimated, LimitFor(policy, requested));
    ResolvedNeverTriggers(policy, nodes, s, estimated, requested);
  }

  /** No run is started exactly if everything is within its limit. */
  lemma QuietIff(policy: Policy, st: TreeState, s: TreeStats, estimated: int, requested: int)
    requires WellFormed(st) && AreStats(st, s)
    ensures Trigger(policy, st.nodes, s, estimated, requested) == NoReason
      <==> WithinLimits(policy, st, estimated, LimitFor(policy, requested))
  {
    QuietParts(policy, st.nodes, s, estimated, requested);
    ShapeIff(policy, st, s);
    RelevanceIff(policy, st.nodes);
  }

  lemma SoftLimitIsTrue(policy: Policy, nodes: Nodes, s: TreeStats, estimated: int, requested: int)
    requires Trigger(policy, nodes, s, estimated, requested) == SoftHeadroom
    ensures 0 < LimitFor(policy, requested) && 0.0 < policy.headroom < 1.0
    ensures LimitFor(policy, requested) as real * policy.headroom < estimated as real
  {
    FloorBound(LimitFor(policy, requested) as real * policy.headroom, estimated);
  }

  lemma CountsAreTrue(policy: Policy, nodes: Nodes, s: TreeStats, estimated: int, requested: int)
    ensures var reason := Trigger(policy, nodes, s, estimated, requested);
      && (reason == ActiveCount ==> 0 < policy.maxActiveNodes < |ActiveIds(nodes)|)
      && (reason == TreeDepth ==> s.maxDepth > policy.maxTreeDepth)
      && (reason == TreeWidth ==> s.maxWidth > policy.maxChildren)
      && (reason == LowRelevance ==> AverageBelow(nodes, policy.lowRelevance))
  {
  }

  /** Too deep or too wide means a chain or a child list beyond the limit. */
  lemma ShapesAreTrue(policy: Policy, st: TreeState, s: TreeStats, estimated: int, requested: int)
    requires WellFormed(st) && AreStats(st, s)
    ensures var reason := Trigger(policy, st.nodes, s, estimated, requested);
      && (reason == TreeDepth ==> !DepthWithin(st, policy.maxTreeDepth))
      && (reason == TreeWidth ==> !WidthWithin(st.nodes, policy.maxChildren))
  {
    CountsAreTrue(policy, st.nodes, s, estimated, requested);
    ShapeIff(policy, st, s);
  }

  /** Whatever reason is given is true. */
  lemma ReasonsAreTrue(policy: Policy, st: TreeState, s: TreeStats, estimated: int, requested: int, budget: int)
    requires WellFormed(st) && AreStats(st, s) && budget == LimitFor(policy, requested)
    ensures match Trigger(policy, st.nodes, s, estimated, requested)
      case NoReason => WithinLimits(policy, st, estimated, budget)
      case TokenPressure => 0 < budget < estimated
      case SoftHeadroom =>
        0 < budget && 0.0 < policy.headroom < 1.0 && budget as real * policy.headroom < estimated as real
      case ActiveCount => 0 < policy.maxActiveNodes < |ActiveIds(st.nodes)|
      case TreeDepth => !DepthWithin(st, policy.maxTreeDepth)
      case TreeWidth => !WidthWithin(st.nodes, policy.maxChildren)
      case LowRelevance => !RelevantEnough(policy, st.nodes)
      case ResolvedBranch => false
  {
    match Trigger(policy, st.nodes, s, estimated, requested) {
      case NoReason => QuietIff(policy, st, s, estimated, requested);
      case TokenPressure => PressureIff(policy, st.nodes, s, estimated, requested);
      case SoftHeadroom => SoftLimitIsTrue(policy, st.nodes, s, estimated, requested);
      case ActiveCount => CountsAreTrue(policy, st.nodes, s, estimated, requested);
      case TreeDepth => ShapesAreTrue(policy, st, s, estimated, requested);
      case TreeWidth => ShapesAreTrue(policy, st, s, estimated, requested);
      case LowRelevance => RelevanceIsTrue(policy, st.nodes, s, estimated, requested);
      case ResolvedBranch => ResolvedNeverTriggers(policy, st.nodes, s, estimated, requested);
    }
  }

  lemma RelevanceIsTrue(policy: Policy, nodes: Nodes, s: TreeStats, estimated: int, requested: int)
    requires Trigger(policy, nodes, s, estimated, requested) == LowRelevance
    ensures !RelevantEnough(policy, nodes)
  {
    CountsAreTrue(policy, nodes, s, estimated, requested);
    RelevanceIff(policy, nodes);
  }
}
