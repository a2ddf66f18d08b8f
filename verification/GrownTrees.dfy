/** The trees a session really has: grown from a root, one node per turn, with garbage collection in
    between. On them compaction never happens. */
module GrownTrees {
  import opened Collections
  import opened Domain
  import opened StateTree
  import opened GarbageCollector
  import opened Compaction
  import opened RunLaws
  import opened TwoRuns

  /** Neither goal nor constraint: hung off the newest active node, and open to compaction. */
  predicate Loose(n: Node) {
    n.kind != NodeGoal && n.kind != NodeConstraint
  }

  predicate NumberedByTurn(session: string, n: Node) {
    (n.id == RootID(session) && n.turn == 0 && n.embedding == [] && n.parent == NoID && n.kind == NodeGoal)
    || (n.turn > 0 && n.id == EventNodeID(session, n.turn))
  }

  ghost predicate GrownNode(st: TreeState, n: Node) {
    && NumberedByTurn(st.session, n)
    && (n.status == Active || n.status == Archived)
    && n.kind != NodeCompressedBranch && n.dependencies == []
    && (n.parent != NoID ==> n.parent in st.nodes && st.nodes[n.parent].turn < n.turn)
  }

  /** A parent has at most one active child that is neither goal nor constraint. */
  ghost predicate OneLooseChild(nodes: Nodes) {
    forall a, b :: a in nodes && b in nodes && a != b ==> !Siblings(nodes[a], nodes[b])
  }

  predicate Siblings(m: Node, n: Node) {
    m.status == Active && n.status == Active && Loose(m) && Loose(n) && m.parent == n.parent && m.parent != NoID
  }

  /** A node that has a parent is among its parent's children. */
  predicate Linked(nodes: Nodes, id: NodeID)
    requires id in nodes
  {
    var p := nodes[id].parent;
    p != NoID ==> p in nodes && id in nodes[p].children
  }

  ghost predicate AllLinked(nodes: Nodes) {
    forall id {:trigger Linked(nodes, id)} :: id in nodes ==> Linked(nodes, id)
  }

  ghost predicate Grown(st: TreeState) {
    && WellFormed(st) && st.root in st.nodes
    && (forall id :: id in st.nodes ==> GrownNode(st, st.nodes[id]))
    && OneLooseChild(st.nodes) && AllLinked(st.nodes)
  }

  // ---------------------------------------------------------------- kept by every operation

  lemma NewTreeIsGrown(session: string)
    ensures Grown(NewTreeState(session))
  {
    NewTreeIsWellFormed(session);
    assert AllLinked(NewTreeState(session).nodes);
  }

  lemma RestoredIsGrown(st: TreeState, before: TreeState)
    requires Grown(before) && IsRestored(st, before.session, before.nodes)
    ensures Grown(st) && st.turns <= before.turns
  {
    RestoredIsWellFormed(st, before);
    var root := before.root;
    NumbersDecide(before, st);
  }

  /** The root is a candidate again, and turn numbers cannot exceed the old count. */
  lemma NumbersDecide(before: TreeState, st: TreeState)
    requires Grown(before) && IsRestored(st, before.session, before.nodes)
    ensures st.root in st.nodes && st.turns <= before.turns
  {
    SomeRootCandidate(before, before.root);
    if st.turns > 0 {
      var w :| w in st.nodes && st.nodes[w].turn == st.turns;
      assert GoodNode(before.nodes, before.turns, w);
    }
  }

  /** Following parents upwards ends at a node without a parent. */
  lemma {:induction false} SomeRootCandidate(st: TreeState, id: NodeID)
    requires Grown(st) && id in st.nodes
    ensures exists r :: r in st.nodes && IsRootCandidate(st.nodes[r])
    decreases st.nodes[id].turn
  {
    assert GrownNode(st, st.nodes[id]);
    if st.nodes[id].parent == NoID {
      assert IsRootCandidate(st.nodes[id]);
    } else {
      SomeRootCandidate(st, st.nodes[id].parent);
    }
  }

  /** The next turn's id is free. */
  lemma NextTurnIsNew(st: TreeState)
    requires Grown(st)
    ensures TurnIsNew(Next(st)) && WellFormed(Next(st))
  {
    forall id | id in st.nodes
      ensures st.nodes[id].turn <= st.turns && id != EventNodeID(st.session, st.turns + 1)
      ensures GoodNode(st.nodes, st.turns + 1, id)
    {
      assert GoodNode(st.nodes, st.turns, id) && GrownNode(st, st.nodes[id]);
    }
  }

  /** `st` with its turn counter advanced. */
  function Next(st: TreeState): TreeState { st.(turns := st.turns + 1) }

  lemma OldNodesAfterAdd(st: TreeState, node: Node, i: NodeID)
    requires i in st.nodes && i != node.id
    ensures i in Added(st, node).nodes
    ensures Added(st, node).nodes[i] == st.nodes[i].(children := Added(st, node).nodes[i].children)
  {
  }

  lemma OldStaysGrown(st: TreeState, node: Node, i: NodeID)
    requires Grown(st) && i in st.nodes && node.id !in st.nodes
    ensures i in Added(Next(st), node).nodes && GrownNode(Added(Next(st), node), Added(Next(st), node).nodes[i])
  {
    assert GrownNode(st, st.nodes[i]);
    OldNodesAfterAdd(Next(st), node, i);
    if st.nodes[i].parent != NoID {
      OldNodesAfterAdd(Next(st), node, st.nodes[i].parent);
    }
  }

  lemma AddedKeepsGrownNodes(st: TreeState, node: Node)
    requires Grown(st) && IsNewNode(Next(st), node) && node.parent in st.nodes && node.id !in st.nodes
    ensures var st2 := Added(Next(st), node); forall id :: id in st2.nodes ==> GrownNode(st2, st2.nodes[id])
  {
    var st2 := Added(Next(st), node);
    assert GrownNode(st, st.nodes[node.parent]) && GoodNode(st.nodes, st.turns, node.parent);
    forall i | i in st.nodes ensures GrownNode(st2, st2.nodes[i]) {
      OldStaysGrown(st, node, i);
    }
  }

  /** Adding the node of the next turn keeps a tree grown. */
  lemma AddedIsGrown(st: TreeState, node: Node)
    requires Grown(st) && IsNewNode(Next(st), node) && IsBestParent(Next(st), node.kind, node.parent)
    ensures Grown(Added(Next(st), node)) && node.id !in st.nodes && node.parent in st.nodes
  {
    NextTurnIsNew(st);
    assert node.parent in st.nodes;
    AddedKeepsWellFormed(Next(st), node);
    AddedKeepsGrownNodes(st, node);
    AddedKeepsOneLooseChild(st, node);
    AddedKeepsLinks(st, node);
  }

  /** The new node is linked, and no old link is lost. */
  lemma AddedKeepsLinks(st: TreeState, node: Node)
    requires Grown(st) && node.parent in st.nodes && node.id !in st.nodes
    ensures AllLinked(Added(Next(st), node).nodes)
  {
    var nodes' := Added(Next(st), node).nodes;
    assert nodes'[node.parent].children == st.nodes[node.parent].children + [node.id];
    forall id | id in nodes' ensures Linked(nodes', id) {
      if id == node.id {
        assert node.id in nodes'[node.parent].children;
      } else {
        OldLinkStays(st, node, id);
      }
    }
  }

  lemma OldLinkStays(st: TreeState, node: Node, id: NodeID)
    requires AllLinked(st.nodes) && id in st.nodes && node.id !in st.nodes
    ensures id in Added(Next(st), node).nodes && Linked(Added(Next(st), node).nodes, id)
  {
    assert Linked(st.nodes, id);
    OldNodesAfterAdd(Next(st), node, id);
  }

  lemma AddedKeepsOneLooseChild(st: TreeState, node: Node)
    requires Grown(st) && IsNewNode(Next(st), node) && IsBestParent(Next(st), node.kind, node.parent)
    requires node.id !in st.nodes && node.parent in st.nodes
    ensures OneLooseChild(Added(Next(st), node).nodes)
  {
    var nodes' := Added(Next(st), node).nodes;
    assert nodes'.Keys == st.nodes.Keys + {node.id};
    forall a, b | a in nodes' && b in nodes' && a != b ensures !Siblings(nodes'[a], nodes'[b]) {
      if a == node.id {
        NewestHasNoLooseChild(st, node, b);
      } else if b == node.id {
        NewestHasNoLooseChild(st, node, a);
      } else {
        OldNodesAfterAdd(Next(st), node, a);
        OldNodesAfterAdd(Next(st), node, b);
        assert !Siblings(st.nodes[a], st.nodes[b]);
      }
    }
  }

  /** No older active node that is neither goal nor constraint hangs off the new node's parent. */
  lemma NewestHasNoLooseChild(st: TreeState, node: Node, c: NodeID)
    requires Grown(st) && IsNewNode(Next(st), node) && IsBestParent(Next(st), node.kind, node.parent)
    requires c in st.nodes && node.id !in st.nodes && node.parent in st.nodes
    ensures var nodes' := Added(Next(st), node).nodes;
      !Siblings(nodes'[node.id], nodes'[c]) && !Siblings(nodes'[c], nodes'[node.id])
  {
    assert GrownNode(st, st.nodes[c]);
    assert c in ActiveIds(st.nodes) <==> st.nodes[c].status == Active;
    OldNodesAfterAdd(Next(st), node, c);
  }

  /** Changes that leave kinds, turns, parents and ids alone and only ever archive keep a tree grown. */
  lemma AgedIsGrown(st: TreeState, nodes': Nodes)
    requires Grown(st) && nodes'.Keys == st.nodes.Keys
    requires forall id :: id in st.nodes ==> Aged(st.nodes[id], nodes'[id])
    ensures Grown(st.(nodes := nodes'))
  {
    forall id | id in nodes' ensures GoodNode(nodes', st.turns, id) && GrownNode(st.(nodes := nodes'), nodes'[id]) {
      assert GoodNode(st.nodes, st.turns, id) && GrownNode(st, st.nodes[id]);
      assert Extends(st.nodes, nodes');
      GoodNodeStays(st.nodes, nodes', st.turns, id);
    }
    AgedHasOneLooseChild(st.nodes, nodes');
    AgedIsLinked(st.nodes, nodes');
  }

  lemma AgedIsLinked(nodes: Nodes, nodes': Nodes)
    requires AllLinked(nodes) && nodes'.Keys == nodes.Keys
    requires forall id :: id in nodes ==> Aged(nodes[id], nodes'[id])
    ensures AllLinked(nodes')
  {
    forall id | id in nodes' ensures Linked(nodes', id) {
      assert Linked(nodes, id) && Aged(nodes[id], nodes'[id]);
    }
  }

  lemma AgedHasOneLooseChild(nodes: Nodes, nodes': Nodes)
    requires OneLooseChild(nodes) && nodes'.Keys == nodes.Keys
    requires forall id :: id in nodes ==> Aged(nodes[id], nodes'[id])
    ensures OneLooseChild(nodes')
  {
    forall a, b | a in nodes' && b in nodes' && a != b ensures !Siblings(nodes'[a], nodes'[b]) {
      assert Aged(nodes[a], nodes'[a]) && Aged(nodes[b], nodes'[b]);
      if Siblings(nodes'[a], nodes'[b]) {
        AgedSiblings(nodes[a], nodes[b], nodes'[a], nodes'[b]);
      }
    }
  }

  lemma AgedSiblings(m: Node, n: Node, m': Node, n': Node)
    requires Aged(m, m') && Aged(n, n') && Siblings(m', n')
    ensures Siblings(m, n)
  {
  }

  predicate Aged(m: Node, n: Node) {
    n == m.(status := n.status, scores := n.scores, embedding := n.embedding)
    && (n.status == m.status || n.status == Archived)
    && (m.id.RootID? ==> n.embedding == m.embedding)
  }

  // ---------------------------------------------------------------- every node is reached

  lemma ChainSnoc(st: TreeState, path: seq<NodeID>, c: NodeID)
    requires IsChain(st, path) && path[|path| - 1] in st.nodes && c in st.nodes[path[|path| - 1]].children
    ensures IsChain(st, path + [c])
  {
    var longer := path + [c];
    forall i | 0 <= i < |longer| - 1 ensures longer[i] in st.nodes && longer[i + 1] in st.nodes[longer[i]].children {
      assert longer[i] == path[i];
      if i < |path| - 1 {
        assert path[i] in st.nodes && path[i + 1] in st.nodes[path[i]].children;
      }
    }
  }

  /** In a grown tree every node is reached by child links from a node without a parent. */
  lemma {:induction false} EveryNodeIsReached(st: TreeState, id: NodeID) returns (path: seq<NodeID>)
    requires Grown(st) && id in st.nodes
    ensures IsChain(st, path) && st.nodes[path[0]].parent == NoID && path[|path| - 1] == id
    decreases st.nodes[id].turn
  {
    if st.nodes[id].parent == NoID {
      path := [id];
    } else {
      assert GrownNode(st, st.nodes[id]) && Linked(st.nodes, id);
      path := EveryNodeIsReached(st, st.nodes[id].parent);
      ChainSnoc(st, path, id);
      path := path + [id];
    }
  }

  // ---------------------------------------------------------------- no compaction

  lemma TwoMembers<T>(s: seq<T>)
    requires NoDup(s) && |s| >= 2
    ensures exists a, b :: a in s && b in s && a != b
  {
    assert s[0] in s && s[1] in s;
  }

  lemma MembersAreLoose(r: Run, p: NodeID, id: NodeID)
    requires AreOrders(r) && p in GroupsOf(r) && id in Compressible(SweptNodes(r), GroupsOf(r)[p])
    ensures id in r.st.nodes && r.st.nodes[id].status == Active && Loose(r.st.nodes[id])
      && r.st.nodes[id].parent == p != NoID
  {
    Grouping(r, p);
    Marking(r);
    CompressibleMembers(SweptNodes(r), GroupsOf(r)[p]);
  }

  lemma SiblingsAreOne(nodes: Nodes, a: NodeID, b: NodeID)
    requires OneLooseChild(nodes) && a in nodes && b in nodes && Siblings(nodes[a], nodes[b])
    ensures a == b
  {
  }

  /** A group of a grown tree has at most one member to fold. */
  lemma GroupsAreThin(r: Run, p: NodeID)
    requires Grown(r.st) && AreOrders(r) && p in GroupsOf(r)
    ensures |Compressible(SweptNodes(r), GroupsOf(r)[p])| <= 1
  {
    var c := Compressible(SweptNodes(r), GroupsOf(r)[p]);
    forall a, b | a in c && b in c ensures a == b {
      MembersAreLoose(r, p, a);
      MembersAreLoose(r, p, b);
      SiblingsAreOne(r.st.nodes, a, b);
    }
    Grouping(r, p);
    CompressibleMembers(SweptNodes(r), GroupsOf(r)[p]);
    if |c| >= 2 {
      TwoMembers(c);
    }
  }

  lemma NoPlans(r: Run)
    requires Grown(r.st) && AreOrders(r)
    ensures forall p :: p in GroupsOf(r) ==> BranchFor(r.gc, SweptNodes(r), GroupsOf(r)[p], p) == None
    ensures BlueprintFor(r).plans == map[]
  {
    forall p | p in GroupsOf(r) ensures BranchFor(r.gc, SweptNodes(r), GroupsOf(r)[p], p) == None {
      GroupsAreThin(r, p);
    }
  }

  lemma GrownRunIsRun(r: Run)
    requires Grown(r.st) && AreOrders(r)
    ensures IsRun(r)
  {
    NoPlans(r);
  }

  /** A run of a grown tree sweeps and does nothing else. */
  lemma GrownTreesNeverCompact(r: Run)
    requires Grown(r.st) && AreOrders(r)
    ensures Result(r).records == [] && Result(r).nodes == SweptNodes(r)
    ensures Result(r).freed == SeqTokens(MarkedNodes(r), SweepOf(r))
  {
    NoPlans(r);
    var groups := GroupsOf(r);
    forall p | p in r.ps ensures BranchFor(r.gc, SweptNodes(r), GroupAt(groups, p), p) == None {
      assert p in Elems(r.ps);
      assert p in groups;
    }
    QuietLoop(r.gc, groups, Work(SweptNodes(r), SeqTokens(MarkedNodes(r), SweepOf(r)), []), r.ps);
  }

  lemma RunKeepsGrown(r: Run)
    requires Grown(r.st) && AreOrders(r)
    ensures Grown(r.st.(nodes := Result(r).nodes))
  {
    GrownTreesNeverCompact(r);
    Marking(r);
    AgedIsGrown(r.st, Result(r).nodes);
  }

  /** On grown trees the tokens a run reports as freed are exactly those that leave the active set. */
  lemma GrownRunBalances(r: Run)
    requires Grown(r.st) && AreOrders(r)
    ensures ActiveTokens(Result(r).nodes) + Result(r).freed == ActiveTokens(r.st.nodes)
  {
    GrownRunIsRun(r);
    GrownTreesNeverCompact(r);
    FreedVersusDrop(r);
    TokensFreedIs(r);
    assert FoldedBy(Result(r)) == {};
    TokensNone(r.st.nodes, Elems(Result(r).swept) * FoldedBy(Result(r)));
  }
}
