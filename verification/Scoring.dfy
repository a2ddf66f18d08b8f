/** Retention scores. */
module Scoring {
  import opened Collections
  import opened Domain
  import opened Text
  import opened VectorMath
  import opened StateTree

  datatype Weights = Weights(
    recency: real, typePriority: real, dependencyBoost: real, unresolvedBoost: real, semantic: real,
    redundancyPen: real, resolvedPen: real, stalePen: real, sizePen: real)

  /** The weights a new scorer starts with; the laws below hold for these and many others. */
  const DEFAULT_WEIGHTS := Weights(0.25, 0.20, 0.15, 0.15, 0.20, 0.10, 0.20, 0.15, 0.05)

  /** `decay(d)` stands for the exponential decay of a node `d` turns old. */
  datatype Scorer = Scorer(
    weights: Weights, staleAfterTurns: int, maxTokensPerNode: int,
    decay: int -> real, sqrt: real -> real, lower: Lower)

  // ---------------------------------------------------------------- the components

  function TypePriority(kind: NodeType): real {
    match kind
    case NodeGoal => 1.0
    case NodeConstraint => 0.95
    case NodeDecision => 0.80
    case NodeIssue => 0.70
    case NodeToolResult => 0.50
    case NodeAttempt => 0.40
    case NodeSummary => 0.60
    case NodeCompressedBranch => 0.60
    case NodeBackground => 0.20
  }

  function Title(sc: Scorer, n: Node): string { LowerAll(sc.lower, n.title) }

  /** The scored nodes that share a title. */
  function Twins(sc: Scorer, nodes: Nodes, ids: set<NodeID>, title: string): set<NodeID> {
    set id | id in ids && id in nodes && Title(sc, nodes[id]) == title
  }

  /** The other active nodes among `ids` that list `id` as a dependency. */
  function Dependents(nodes: Nodes, ids: set<NodeID>, id: NodeID): set<NodeID> {
    set o | o in ids && o in nodes && DependsOn(nodes[o], o, id)
  }

  predicate DependsOn(o: Node, oid: NodeID, id: NodeID) {
    oid != id && o.status == Active && id in o.dependencies
  }

  function Redundancy(twins: nat): real {
    if twins > 1 then MinReal((twins - 1) as real * 0.3, 1.0) else 0.0
  }

  function DependencyWeight(dependents: nat): real {
    MinReal(dependents as real * 0.3, 1.0)
  }

  /** Division by a threshold of zero turns gives infinity, which the cap turns into 1. */
  function StalePenalty(sc: Scorer, dist: int): real {
    if dist <= sc.staleAfterTurns then 0.0
    else if sc.staleAfterTurns == 0 then 1.0
    else MinReal((dist - sc.staleAfterTurns) as real / sc.staleAfterTurns as real, 1.0)
  }

  function SizePenalty(sc: Scorer, tokens: int): real {
    if sc.maxTokensPerNode > 0 && tokens > sc.maxTokensPerNode then
      MinReal(tokens as real / sc.maxTokensPerNode as real - 1.0, 1.0)
    else 0.0
  }

  /** An empty query vector stands for a missing one. */
  function Semantic(sc: Scorer, query: Vec, n: Node): real {
    if |query| > 0 && |n.embedding| == |query| then Cosine(sc.sqrt, query, n.embedding) else 0.0
  }

  function Clamp(v: real, lo: real, hi: real): real {
    if v < lo then lo else if v > hi then hi else v
  }

  function Raw(w: Weights, s: Scores): real {
    w.recency * s.recency + w.typePriority * s.typePriority + w.dependencyBoost * s.dependencyWeight
    + w.unresolvedBoost * s.unresolvedBoost + w.semantic * s.semantic
    - w.redundancyPen * s.redundancy - w.resolvedPen * s.resolvedPenalty
    - w.stalePen * s.stalePenalty - w.sizePen * s.sizePenalty
  }

  /** The components, before they are combined. */
  function Components(sc: Scorer, n: Node, turn: nat, twins: nat, dependents: nat, query: Vec): Scores {
    Scores(
      sc.decay(turn - n.turn), DependencyWeight(dependents), Redundancy(twins), TypePriority(n.kind),
      if |n.openIssues| > 0 && n.status == Active then 1.0 else 0.0,
      if n.status == Resolved then 1.0 else 0.0,
      StalePenalty(sc, turn - n.turn), SizePenalty(sc, n.tokens), Semantic(sc, query, n), 0.0)
  }

  function ScoreOf(sc: Scorer, n: Node, turn: nat, twins: nat, dependents: nat, query: Vec): Scores {
    var c := Components(sc, n, turn, twins, dependents, query);
    c.(retention := Clamp(Raw(sc.weights, c), 0.0, 1.0))
  }

  function ScoreNode(sc: Scorer, nodes: Nodes, ids: set<NodeID>, id: NodeID, turn: nat, query: Vec): Scores
    requires id in nodes
  {
    ScoreOf(sc, nodes[id], turn, |Twins(sc, nodes, ids, Title(sc, nodes[id]))|, |Dependents(nodes, ids, id)|, query)
  }

  /** Every node of `ids` with its score among `ids`; the other nodes as they were. */
  function Rescored(sc: Scorer, nodes: Nodes, ids: set<NodeID>, turn: nat, query: Vec): Nodes {
    map id | id in nodes ::
      if id in ids then nodes[id].(scores := ScoreNode(sc, nodes, ids, id, turn, query)) else nodes[id]
  }

  /** Two node maps that differ in scores only. */
  ghost predicate SameButScores(a: Nodes, b: Nodes) {
    a.Keys == b.Keys && forall id :: id in a ==> b[id] == a[id].(scores := b[id].scores)
  }

  // ---------------------------------------------------------------- a smaller set scores no lower

  lemma RedundancyShrinks(few: nat, many: nat)
    requires few <= many
    ensures Redundancy(few) <= Redundancy(many)
  {
  }

  lemma RawFalls(w: Weights, s: Scores, r: real)
    requires w.redundancyPen >= 0.0 && r <= s.redundancy
    ensures Raw(w, s.(redundancy := r)) >= Raw(w, s)
  {
    assert w.redundancyPen * r <= w.redundancyPen * s.redundancy;
  }

  /** Fewer twins never lower a retention score. */
  lemma FewerTwinsScoreHigher(sc: Scorer, n: Node, turn: nat, few: nat, many: nat, dependents: nat, query: Vec)
    requires few <= many && sc.weights.redundancyPen >= 0.0
    ensures ScoreOf(sc, n, turn, few, dependents, query).retention
         >= ScoreOf(sc, n, turn, many, dependents, query).retention
  {
    RedundancyShrinks(few, many);
    var b := Components(sc, n, turn, many, dependents, query);
    assert Components(sc, n, turn, few, dependents, query) == b.(redundancy := Redundancy(few));
    RawFalls(sc.weights, b, Redundancy(few));
    ClampGrows(Raw(sc.weights, b.(redundancy := Redundancy(few))), Raw(sc.weights, b));
  }

  lemma ClampGrows(x: real, y: real)
    requires x >= y
    ensures Clamp(x, 0.0, 1.0) >= Clamp(y, 0.0, 1.0)
  {
  }

  // ---------------------------------------------------------------- age and dependents

  lemma QuotientGrows(a: int, b: int, d: int)
    requires a <= b && d > 0
    ensures a as real / d as real <= b as real / d as real
  {
  }

  lemma StalePenaltyGrows(sc: Scorer, a: int, b: int)
    requires a <= b && sc.staleAfterTurns >= 0
    ensures StalePenalty(sc, a) <= StalePenalty(sc, b)
  {
    if a > sc.staleAfterTurns > 0 {
      QuotientGrows(a - sc.staleAfterTurns, b - sc.staleAfterTurns, sc.staleAfterTurns);
    } else if b > sc.staleAfterTurns > 0 {
      QuotientGrows(0, b - sc.staleAfterTurns, sc.staleAfterTurns);
    }
  }

  lemma RawOrder(w: Weights, s: Scores, recency: real, stale: real, dependency: real)
    requires w.recency >= 0.0 && w.stalePen >= 0.0 && w.dependencyBoost >= 0.0
    requires recency <= s.recency && stale >= s.stalePenalty && dependency <= s.dependencyWeight
    ensures Raw(w, s.(recency := recency, stalePenalty := stale, dependencyWeight := dependency)) <= Raw(w, s)
  {
    assert w.recency * recency <= w.recency * s.recency;
    assert w.stalePen * stale >= w.stalePen * s.stalePenalty;
    assert w.dependencyBoost * dependency <= w.dependencyBoost * s.dependencyWeight;
  }

  /** All else equal, a node that is older and has fewer dependents never scores higher, whatever the
      decay, as long as it decays; and scores lie between 0 and 1. */
  lemma OlderScoresNoHigher(sc: Scorer, n: Node, now: nat, later: nat, twins: nat, few: nat, many: nat, query: Vec)
    requires now <= later && few <= many && sc.staleAfterTurns >= 0
    requires sc.weights.recency >= 0.0 && sc.weights.stalePen >= 0.0 && sc.weights.dependencyBoost >= 0.0
    requires forall a, b :: a <= b ==> sc.decay(b) <= sc.decay(a)
    ensures ScoreOf(sc, n, later, twins, few, query).retention <= ScoreOf(sc, n, now, twins, many, query).retention
    ensures 0.0 <= ScoreOf(sc, n, later, twins, few, query).retention <= 1.0
  {
    StalePenaltyGrows(sc, now - n.turn, later - n.turn);
    var a, b := Components(sc, n, now, twins, many, query), Components(sc, n, later, twins, few, query);
    assert b == a.(recency := b.recency, stalePenalty := b.stalePenalty, dependencyWeight := b.dependencyWeight);
    RawOrder(sc.weights, a, b.recency, b.stalePenalty, b.dependencyWeight);
    ClampGrows(Raw(sc.weights, a), Raw(sc.weights, b));
  }

  // ---------------------------------------------------------------- the loops

  function Lookup(idx: map<string, nat>, key: string): nat {
    if key in idx then idx[key] else 0
  }

  /** How often a list names a node with this title. */
  function TitleCount(sc: Scorer, nodes: Nodes, ids: seq<NodeID>, title: string): nat {
    if ids == [] then 0
    else
      var id := ids[|ids| - 1];
      TitleCount(sc, nodes, ids[..|ids| - 1], title) + if id in nodes && Title(sc, nodes[id]) == title then 1 else 0
  }

  /** How often a list names another active node that depends on `id`. */
  function DependentCount(nodes: Nodes, ids: seq<NodeID>, id: NodeID): nat {
    if ids == [] then 0
    else
      var o := ids[|ids| - 1];
      DependentCount(nodes, ids[..|ids| - 1], id) + if o in nodes && DependsOn(nodes[o], o, id) then 1 else 0
  }

  /** The score of a node among the nodes of a list. */
  function ScoreAmong(sc: Scorer, nodes: Nodes, ids: seq<NodeID>, id: NodeID, turn: nat, query: Vec): Scores
    requires id in nodes
  {
    ScoreOf(sc, nodes[id], turn, TitleCount(sc, nodes, ids, Title(sc, nodes[id])), DependentCount(nodes, ids, id),
            query)
  }

  /** The nodes of `done` with their scores among the list; the other nodes as they were. */
  function ScoredSoFar(sc: Scorer, nodes: Nodes, ids: seq<NodeID>, done: seq<NodeID>, turn: nat, query: Vec): Nodes {
    map id | id in nodes ::
      if id in done then nodes[id].(scores := ScoreAmong(sc, nodes, ids, id, turn, query)) else nodes[id]
  }

  function RescoredList(sc: Scorer, nodes: Nodes, ids: seq<NodeID>, turn: nat, query: Vec): Nodes {
    ScoredSoFar(sc, nodes, ids, ids, turn, query)
  }

  lemma ScoredOneMore(sc: Scorer, nodes: Nodes, ids: seq<NodeID>, i: nat, turn: nat, query: Vec)
    requires i < |ids| && ids[i] in nodes
    ensures ScoredSoFar(sc, nodes, ids, ids[..i + 1], turn, query)
         == ScoredSoFar(sc, nodes, ids, ids[..i], turn, query)[
              ids[i] := nodes[ids[i]].(scores := ScoreAmong(sc, nodes, ids, ids[i], turn, query))]
    ensures SameButScores(nodes, ScoredSoFar(sc, nodes, ids, ids[..i], turn, query))
  {
    assert ids[..i + 1] == ids[..i] + [ids[i]];
  }

  lemma ElemsStep(ids: seq<NodeID>, i: nat)
    requires NoDup(ids) && i < |ids|
    ensures Elems(ids[..i + 1]) == Elems(ids[..i]) + {ids[i]} && ids[i] !in Elems(ids[..i])
  {
    assert ids[..i + 1] == ids[..i] + [ids[i]];
  }

  lemma TwinsStep(sc: Scorer, nodes: Nodes, seen: set<NodeID>, id: NodeID, key: string)
    requires id !in seen
    ensures |Twins(sc, nodes, seen + {id}, key)|
         == |Twins(sc, nodes, seen, key)| + if id in nodes && key == Title(sc, nodes[id]) then 1 else 0
  {
    var before, after := Twins(sc, nodes, seen, key), Twins(sc, nodes, seen + {id}, key);
    if id in nodes && key == Title(sc, nodes[id]) {
      assert after == before + {id};
    } else {
      assert after == before;
    }
  }

  lemma DependentsStep(nodes: Nodes, seen: set<NodeID>, o: NodeID, id: NodeID)
    requires o !in seen
    ensures |Dependents(nodes, seen + {o}, id)|
         == |Dependents(nodes, seen, id)| + if o in nodes && DependsOn(nodes[o], o, id) then 1 else 0
  {
    var before, after := Dependents(nodes, seen, id), Dependents(nodes, seen + {o}, id);
    if o in nodes && DependsOn(nodes[o], o, id) {
      assert after == before + {o};
    } else {
      assert after == before;
    }
  }

  /** In a list without repetitions, positions are nodes. */
  lemma {:induction false} CountsAreSizes(sc: Scorer, nodes: Nodes, ids: seq<NodeID>, title: string, id: NodeID)
    requires NoDup(ids)
    ensures TitleCount(sc, nodes, ids, title) == |Twins(sc, nodes, Elems(ids), title)|
    ensures DependentCount(nodes, ids, id) == |Dependents(nodes, Elems(ids), id)|
  {
    if ids == [] {
      assert Twins(sc, nodes, Elems(ids), title) == {} && Dependents(nodes, Elems(ids), id) == {};
    } else {
      var front, last := ids[..|ids| - 1], ids[|ids| - 1];
      CountsAreSizes(sc, nodes, front, title, id);
      ElemsStep(ids, |ids| - 1);
      assert ids[..|ids|] == ids;
      TwinsStep(sc, nodes, Elems(front), last, title);
      DependentsStep(nodes, Elems(front), last, id);
    }
  }

  /** Without repetitions, scoring a list is scoring the set of its nodes. */
  lemma RescoredListIs(sc: Scorer, nodes: Nodes, ids: seq<NodeID>, turn: nat, query: Vec)
    requires NoDup(ids)
    ensures RescoredList(sc, nodes, ids, turn, query) == Rescored(sc, nodes, Elems(ids), turn, query)
  {
    forall id | id in nodes
      ensures ScoreAmong(sc, nodes, ids, id, turn, query) == ScoreNode(sc, nodes, Elems(ids), id, turn, query)
    {
      CountsAreSizes(sc, nodes, ids, Title(sc, nodes[id]), id);
    }
  }

  method BuildTitleIndex(sc: Scorer, nodes: Nodes, ids: seq<NodeID>) returns (idx: map<string, nat>)
    requires forall i :: 0 <= i < |ids| ==> ids[i] in nodes
    ensures forall key :: Lookup(idx, key) == TitleCount(sc, nodes, ids, key)
  {
    idx := map[];
    for i := 0 to |ids|
      invariant forall key :: Lookup(idx, key) == TitleCount(sc, nodes, ids[..i], key)
    {
      assert ids[..i + 1][..i] == ids[..i];
      var key := Title(sc, nodes[ids[i]]);
      idx := idx[key := Lookup(idx, key) + 1];
    }
    assert ids[..|ids|] == ids;
  }

  method CountDependents(nodes: Nodes, ids: seq<NodeID>, id: NodeID) returns (count: nat)
    requires forall i :: 0 <= i < |ids| ==> ids[i] in nodes
    ensures count == DependentCount(nodes, ids, id)
  {
    count := 0;
    for i := 0 to |ids|
      invariant count == DependentCount(nodes, ids[..i], id)
    {
      assert ids[..i + 1][..i] == ids[..i];
      if ids[i] == id || nodes[ids[i]].status != Active {
        continue;
      }
      if id in nodes[ids[i]].dependencies {
        count := count + 1;
      }
    }
    assert ids[..|ids|] == ids;
  }

  lemma {:induction false} DependentsReadNoScores(a: Nodes, b: Nodes, ids: seq<NodeID>, id: NodeID)
    requires SameButScores(a, b)
    ensures DependentCount(a, ids, id) == DependentCount(b, ids, id)
  {
    if ids != [] {
      DependentsReadNoScores(a, b, ids[..|ids| - 1], id);
    }
  }

  lemma ScoreReadsNoScores(sc: Scorer, n: Node, s: Scores, turn: nat, twins: nat, dependents: nat, query: Vec)
    ensures ScoreOf(sc, n.(scores := s), turn, twins, dependents, query)
         == ScoreOf(sc, n, turn, twins, dependents, query)
  {
  }

  /** One turn of the scoring loop, on nodes some of which have their new scores already. */
  method ScoreOne(sc: Scorer, tree: Tree, ids: seq<NodeID>, id: NodeID, turn: nat, query: Vec,
                  titles: map<string, nat>, ghost before: Nodes)
    requires SameButScores(before, tree.nodes) && id in before && forall i :: 0 <= i < |ids| ==> ids[i] in before
    requires forall key :: Lookup(titles, key) == TitleCount(sc, before, ids, key)
    modifies tree`nodes
    ensures tree.nodes == old(tree.nodes)[id := before[id].(scores := ScoreAmong(sc, before, ids, id, turn, query))]
  {
    var n := tree.nodes[id];
    var twins := Lookup(titles, LowerAll(sc.lower, n.title));
    var dependents := CountDependents(tree.nodes, ids, id);
    DependentsReadNoScores(before, tree.nodes, ids, id);
    ScoreReadsNoScores(sc, before[id], n.scores, turn, twins, dependents, query);
    tree.nodes := tree.nodes[id := n.(scores := ScoreOf(sc, n, turn, twins, dependents, query))];
  }

  /** `ScoreAll` on the listed nodes of a tree. */
  method ScoreAll(sc: Scorer, tree: Tree, ids: seq<NodeID>, turn: nat, query: Vec)
    requires forall i :: 0 <= i < |ids| ==> ids[i] in tree.nodes
    modifies tree`nodes
    ensures tree.nodes == RescoredList(sc, old(tree.nodes), ids, turn, query)
    ensures NoDup(ids) ==> tree.nodes == Rescored(sc, old(tree.nodes), Elems(ids), turn, query)
  {
    ghost var before := tree.nodes;
    var titles := BuildTitleIndex(sc, tree.nodes, ids);
    for i := 0 to |ids|
      invariant tree.nodes == ScoredSoFar(sc, before, ids, ids[..i], turn, query)
    {
      ScoredOneMore(sc, before, ids, i, turn, query);
      ScoreOne(sc, tree, ids, ids[i], turn, query, titles, before);
    }
    assert ids[..|ids|] == ids;
    if NoDup(ids) {
      RescoredListIs(sc, before, ids, turn, query);
    }
  }
}
