/** What a retention score is made of, and what makes one node score higher than another. */
module ScoreLaws {
  import opened Collections
  import opened Domain
  import opened VectorMath
  import opened Scoring

  /** The kinds of nodes, the most important first. */
  const KINDS := [NodeGoal, NodeConstraint, NodeDecision, NodeIssue, NodeSummary, NodeCompressedBranch,
                  NodeToolResult, NodeAttempt, NodeBackground]

  lemma EveryKindIsListed(kind: NodeType) returns (i: nat)
    ensures i < |KINDS| && KINDS[i] == kind
  {
    i := match kind
      case NodeGoal => 0
      case NodeConstraint => 1
      case NodeDecision => 2
      case NodeIssue => 3
      case NodeSummary => 4
      case NodeCompressedBranch => 5
      case NodeToolResult => 6
      case NodeAttempt => 7
      case NodeBackground => 8;
  }

  lemma ImportantFirst(i: nat, j: nat)
    requires i <= j < |KINDS|
    ensures TypePriority(KINDS[i]) >= TypePriority(KINDS[j])
  {
  }

  // ---------------------------------------------------------------- what a score is made of

  /** The similarity of a node to the query, if both have vectors of one length. */
  function Similarity(sc: Scorer, query: Vec, n: Node): real {
    if query != [] && |n.embedding| == |query| then Cosine(sc.sqrt, query, n.embedding) else 0.0
  }

  function AtMostOne(x: real): real { if x > 1.0 then 1.0 else x }

  /** With the default weights: recency counts a quarter, importance and similarity a fifth, dependents
      and open issues three twentieths each; against it count similar titles one tenth, being resolved a
      fifth, staleness three twentieths and size one twentieth; and the sum is cut to the unit interval. */
  lemma DefaultScoreIs(sc: Scorer, n: Node, turn: nat, twins: nat, dependents: nat, query: Vec, priority: real)
    requires sc.weights == DEFAULT_WEIGHTS
    requires priority == match n.kind
      case NodeGoal => 1.0
      case NodeConstraint => 0.95
      case NodeDecision => 0.80
      case NodeIssue => 0.70
      case NodeToolResult => 0.50
      case NodeAttempt => 0.40
      case NodeSummary => 0.60
      case NodeCompressedBranch => 0.60
      case NodeBackground => 0.20
    ensures
      var age, late := turn - n.turn, turn - n.turn - sc.staleAfterTurns;
      var sum := 0.25 * sc.decay(age) + 0.20 * priority + 0.20 * Similarity(sc, query, n)
        + 0.15 * AtMostOne(0.3 * dependents as real)
        + (if n.openIssues != [] && n.status == Active then 0.15 else 0.0)
        - (if twins > 1 then 0.10 * AtMostOne(0.3 * (twins - 1) as real) else 0.0)
        - (if n.status == NodeStatus.Resolved then 0.20 else 0.0)
        - (if late <= 0 then 0.0
           else if sc.staleAfterTurns == 0 then 0.15
           else 0.15 * AtMostOne(late as real / sc.staleAfterTurns as real))
        - (if 0 < sc.maxTokensPerNode < n.tokens
           then 0.05 * AtMostOne((n.tokens - sc.maxTokensPerNode) as real / sc.maxTokensPerNode as real) else 0.0);
      ScoreOf(sc, n, turn, twins, dependents, query).retention == MaxReal(0.0, MinReal(1.0, sum))
  {
    if 0 < sc.maxTokensPerNode < n.tokens {
      Excess(n.tokens, sc.maxTokensPerNode);
    }
    var c := Components(sc, n, turn, twins, dependents, query);
    assert c.recency == sc.decay(turn - n.turn) && c.typePriority == priority && c.semantic == Similarity(sc, query, n);
    assert c.dependencyWeight == AtMostOne(0.3 * dependents as real);
    assert c.redundancy == if twins > 1 then AtMostOne(0.3 * (twins - 1) as real) else 0.0;
    DefaultRaw(c);
  }

  lemma DefaultRaw(c: Scores)
    ensures Raw(DEFAULT_WEIGHTS, c) ==
      0.25 * c.recency + 0.20 * c.typePriority + 0.15 * c.dependencyWeight
      + 0.15 * c.unresolvedBoost + 0.20 * c.semantic
      - 0.10 * c.redundancy - 0.20 * c.resolvedPenalty - 0.15 * c.stalePenalty - 0.05 * c.sizePenalty
  {
  }

  lemma Excess(tokens: int, limit: int)
    requires limit > 0
    ensures tokens as real / limit as real - 1.0 == (tokens - limit) as real / limit as real
  {
    var q := tokens as real / limit as real;
    assert (q - 1.0) * limit as real == (tokens - limit) as real;
    QuotientIs(q - 1.0, (tokens - limit) as real, limit as real);
  }

  lemma QuotientIs(q: real, x: real, y: real)
    requires y > 0.0 && q * y == x
    ensures q == x / y
  {
  }

  // ---------------------------------------------------------------- what makes a node score higher

  predicate NonNegativeWeights(w: Weights) {
    w.recency >= 0.0 && w.typePriority >= 0.0 && w.dependencyBoost >= 0.0 && w.unresolvedBoost >= 0.0
    && w.semantic >= 0.0 && w.redundancyPen >= 0.0 && w.resolvedPen >= 0.0 && w.stalePen >= 0.0 && w.sizePen >= 0.0
  }

  /** Better in every component. */
  predicate Dominates(a: Scores, b: Scores) {
    a.recency >= b.recency && a.typePriority >= b.typePriority && a.dependencyWeight >= b.dependencyWeight
    && a.unresolvedBoost >= b.unresolvedBoost && a.semantic >= b.semantic
    && a.redundancy <= b.redundancy && a.resolvedPenalty <= b.resolvedPenalty
    && a.stalePenalty <= b.stalePenalty && a.sizePenalty <= b.sizePenalty
  }

  lemma TimesGrows(w: real, x: real, y: real)
    requires w >= 0.0 && x <= y
    ensures w * x <= w * y
  {
  }

  lemma DominatesRaw(w: Weights, a: Scores, b: Scores)
    requires NonNegativeWeights(w) && Dominates(a, b)
    ensures Raw(w, a) >= Raw(w, b)
  {
    DominatesGains(w, a, b);
    DominatesPenalties(w, a, b);
    RawIsGainsLessPenalties(w, a);
    RawIsGainsLessPenalties(w, b);
  }

  function Gains(w: Weights, s: Scores): real {
    w.recency * s.recency + w.typePriority * s.typePriority + w.dependencyBoost * s.dependencyWeight
    + w.unresolvedBoost * s.unresolvedBoost + w.semantic * s.semantic
  }

  function Penalties(w: Weights, s: Scores): real {
    w.redundancyPen * s.redundancy + w.resolvedPen * s.resolvedPenalty
    + w.stalePen * s.stalePenalty + w.sizePen * s.sizePenalty
  }

  lemma RawIsGainsLessPenalties(w: Weights, s: Scores)
    ensures Raw(w, s) == Gains(w, s) - Penalties(w, s)
  {
  }

  lemma DominatesGains(w: Weights, a: Scores, b: Scores)
    requires NonNegativeWeights(w) && Dominates(a, b)
    ensures Gains(w, a) >= Gains(w, b)
  {
    TimesGrows(w.recency, b.recency, a.recency);
    TimesGrows(w.typePriority, b.typePriority, a.typePriority);
    TimesGrows(w.dependencyBoost, b.dependencyWeight, a.dependencyWeight);
    TimesGrows(w.unresolvedBoost, b.unresolvedBoost, a.unresolvedBoost);
    TimesGrows(w.semantic, b.semantic, a.semantic);
  }

  lemma DominatesPenalties(w: Weights, a: Scores, b: Scores)
    requires NonNegativeWeights(w) && Dominates(a, b)
    ensures Penalties(w, a) <= Penalties(w, b)
  {
    TimesGrows(w.redundancyPen, a.redundancy, b.redundancy);
    TimesGrows(w.resolvedPen, a.resolvedPenalty, b.resolvedPenalty);
    TimesGrows(w.stalePen, a.stalePenalty, b.stalePenalty);
    TimesGrows(w.sizePen, a.sizePenalty, b.sizePenalty);
  }

  lemma SizePenaltyGrows(sc: Scorer, a: int, b: int)
    requires a <= b
    ensures SizePenalty(sc, a) <= SizePenalty(sc, b)
  {
    if sc.maxTokensPerNode > 0 && b > sc.maxTokensPerNode {
      QuotientGrows(a, b, sc.maxTokensPerNode);
      QuotientGrows(sc.maxTokensPerNode, b, sc.maxTokensPerNode);
    }
  }

  lemma MoreDependents(few: nat, many: nat)
    requires few <= many
    ensures DependencyWeight(few) <= DependencyWeight(many)
  {
  }

  /** A node that is newer, more important, more similar, smaller, and has more dependents and fewer
      twins never scores lower than another; open issues count for a node, being resolved against it. */
  lemma BetterScoresNoLower(sc: Scorer, m: Node, n: Node, turn: nat, mTwins: nat, nTwins: nat,
                            mDependents: nat, nDependents: nat, query: Vec, i: nat, j: nat)
    requires NonNegativeWeights(sc.weights) && sc.staleAfterTurns >= 0
    requires forall a, b :: a <= b ==> sc.decay(b) <= sc.decay(a)
    requires n.turn <= m.turn && m.tokens <= n.tokens && Similarity(sc, query, n) <= Similarity(sc, query, m)
    requires mTwins <= nTwins && nDependents <= mDependents
    requires i <= j < |KINDS| && KINDS[i] == m.kind && KINDS[j] == n.kind
    requires n.openIssues != [] && n.status == Active ==> m.openIssues != [] && m.status == Active
    requires m.status == NodeStatus.Resolved ==> n.status == NodeStatus.Resolved
    ensures ScoreOf(sc, m, turn, mTwins, mDependents, query).retention
         >= ScoreOf(sc, n, turn, nTwins, nDependents, query).retention
  {
    var a := Components(sc, m, turn, mTwins, mDependents, query);
    var b := Components(sc, n, turn, nTwins, nDependents, query);
    ImportantFirst(i, j);
    StalePenaltyGrows(sc, turn - m.turn, turn - n.turn);
    SizePenaltyGrows(sc, m.tokens, n.tokens);
    RedundancyShrinks(mTwins, nTwins);
    MoreDependents(nDependents, mDependents);
    DominatesRaw(sc.weights, a, b);
    ClampGrows(Raw(sc.weights, a), Raw(sc.weights, b));
  }
}
