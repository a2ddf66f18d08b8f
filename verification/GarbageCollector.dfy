/** The mark, sweep and compact cycle: its specification on values, and the cycle on a tree. */
module GarbageCollector {
  import opened Collections
  import opened Domain
  import opened VectorMath
  import opened StateTree
  import opened Scoring

  datatype Policy = Policy(
    maxPromptTokens: int, maxTreeDepth: int, maxChildren: int, lowRelevance: real,
    decisionFloor: real, maxActiveNodes: int, headroom: real)

  /** Compression is an oracle on what it can see of the nodes it is given. */
  type Compressor = seq<Node> -> Option<Node>

  datatype Collector = Collector(policy: Policy, scorer: Scorer, compress: Compressor)

  /** The durable record of one compressed branch. */
  datatype BranchRecord = BranchRecord(
    branch: NodeID, parent: NodeID, originals: seq<NodeID>, summary: string,
    decisions: seq<string>, facts: seq<string>, issues: seq<string>, constraints: seq<string>,
    eventRefs: seq<string>, originalTokens: int, compressedTokens: int)

  // ---------------------------------------------------------------- mark

  /** Nodes that carry facts or decisions are left out of the whole cycle. */
  predicate Deferred(n: Node) {
    |n.facts| > 0 || |n.decisions| > 0
  }

  function SweepScore(policy: Policy, n: Node): real {
    if policy.decisionFloor > 0.0 && |n.facts| == 0 && |n.decisions| == 0 && n.kind == NodeDecision then
      MaxReal(n.scores.retention, policy.decisionFloor)
    else n.scores.retention
  }

  predicate Sweepable(policy: Policy, n: Node) {
    !Deferred(n) && SweepScore(policy, n) < policy.lowRelevance
  }

  predicate InGroup(n: Node, p: NodeID) {
    !Deferred(n) && n.parent == p && p != NoID
  }

  predicate Known(nodes: Nodes, ids: seq<NodeID>) {
    forall i :: 0 <= i < |ids| ==> ids[i] in nodes
  }

  /** The nodes to sweep, in visiting order. */
  function SweepList(policy: Policy, nodes: Nodes, order: seq<NodeID>): seq<NodeID>
  {
    if order == [] then []
    else
      var front := SweepList(policy, nodes, order[..|order| - 1]);
      var id := order[|order| - 1];
      if id in nodes && Sweepable(policy, nodes[id]) then front + [id] else front
  }

  /** The candidates under parent `p`, in visiting order. */
  function GroupOf(nodes: Nodes, order: seq<NodeID>, p: NodeID): seq<NodeID>
  {
    if order == [] then []
    else
      var front := GroupOf(nodes, order[..|order| - 1], p);
      var id := order[|order| - 1];
      if id in nodes && InGroup(nodes[id], p) then front + [id] else front
  }

  function Parents(nodes: Nodes, order: seq<NodeID>): set<NodeID>
  {
    set id | id in order && id in nodes && InGroup(nodes[id], nodes[id].parent) :: nodes[id].parent
  }

  type Groups = map<NodeID, seq<NodeID>>

  function MarkGroups(nodes: Nodes, order: seq<NodeID>): Groups
  {
    map p | p in Parents(nodes, order) :: GroupOf(nodes, order, p)
  }

  // ---------------------------------------------------------------- compact

  function Compressible(nodes: Nodes, ids: seq<NodeID>): seq<NodeID> {
    if ids == [] then []
    else
      var front := Compressible(nodes, ids[..|ids| - 1]);
      var id := ids[|ids| - 1];
      if id in nodes && nodes[id].kind != NodeGoal && nodes[id].kind != NodeConstraint then front + [id] else front
  }

  predicate AllResolved(nodes: Nodes, ids: seq<NodeID>)
  {
    forall id :: id in ids && id in nodes ==> nodes[id].status != Active
  }

  /** What a compressor can see: everything but the child links, which it never reads. */
  function View(n: Node): Node { n.(children := []) }

  function Views(nodes: Nodes, ids: seq<NodeID>): seq<Node> {
    if ids == [] then []
    else
      var front := Views(nodes, ids[..|ids| - 1]);
      var id := ids[|ids| - 1];
      if id in nodes then front + [View(nodes[id])] else front
  }

  const MIN_BRANCH := 3

  /** The branch node that replaces a group, if the group is compacted. */
  function BranchFor(gc: Collector, nodes: Nodes, group: seq<NodeID>, p: NodeID): Option<Node>
  {
    if |group| < gc.policy.maxChildren && !AllResolved(nodes, group) then None
    else
      var members := Compressible(nodes, group);
      if |members| < MIN_BRANCH then None
      else
        match gc.compress(Views(nodes, members))
        case None => None
        case Some(c) => Some(c.(parent := p))
  }

  function SeqTokens(nodes: Nodes, ids: seq<NodeID>): int {
    if ids == [] then 0
    else
      var id := ids[|ids| - 1];
      SeqTokens(nodes, ids[..|ids| - 1]) + if id in nodes then nodes[id].tokens else 0
  }

  function AllIssues(views: seq<Node>): seq<string> {
    if views == [] then [] else AllIssues(views[..|views| - 1]) + views[|views| - 1].openIssues
  }

  function AllEventRefs(views: seq<Node>): seq<string> {
    if views == [] then [] else AllEventRefs(views[..|views| - 1]) + views[|views| - 1].eventRefs
  }

  function ConstraintSummaries(views: seq<Node>): seq<string> {
    if views == [] then []
    else
      var n := views[|views| - 1];
      ConstraintSummaries(views[..|views| - 1]) + if n.kind == NodeConstraint then [n.summary] else []
  }

  function RecordOf(nodes: Nodes, members: seq<NodeID>, c: Node): BranchRecord
  {
    BranchRecord(c.id, c.parent, members, c.summary, c.decisions, c.facts,
                 AllIssues(Views(nodes, members)), ConstraintSummaries(Views(nodes, members)),
                 AllEventRefs(Views(nodes, members)),
                 SeqTokens(nodes, members), c.tokens)
  }

  /** The state of the compaction loop. */
  datatype Work = Work(nodes: Nodes, freed: int, records: seq<BranchRecord>)

  function RecordTokens(records: seq<BranchRecord>): int {
    if records == [] then 0 else RecordTokens(records[..|records| - 1]) + records[|records| - 1].compressedTokens
  }

  function GroupAt(groups: Groups, p: NodeID): seq<NodeID> {
    if p in groups then groups[p] else []
  }

  /** One round of the loop: parent `p`. */
  function CompactOne(gc: Collector, groups: Groups, w: Work, p: NodeID): Work {
    match BranchFor(gc, w.nodes, GroupAt(groups, p), p)
    case None => w
    case Some(c) =>
      var members := Compressible(w.nodes, GroupAt(groups, p));
      Work(Replaced(w.nodes, p, members, c),
           w.freed + SeqTokens(w.nodes, members) - c.tokens,
           w.records + [RecordOf(w.nodes, members, c)])
  }

  /** The loop over the parents in the order `ps`. */
  function CompactAll(gc: Collector, groups: Groups, w: Work, ps: seq<NodeID>): Work {
    if ps == [] then w
    else CompactOne(gc, groups, CompactAll(gc, groups, w, ps[..|ps| - 1]), ps[|ps| - 1])
  }

  // ---------------------------------------------------------------- the whole cycle

  datatype Outcome = Outcome(nodes: Nodes, swept: seq<NodeID>, freed: int, records: seq<BranchRecord>)

  function Marked(gc: Collector, st: TreeState, query: Vec): Nodes {
    Rescored(gc.scorer, st.nodes, ActiveIds(st.nodes), st.turns, query)
  }

  /** A run: a tree, a query vector, and the orders in which its two maps happen to be visited: the
      active nodes, and the parents that have candidates. */
  datatype Run = Run(gc: Collector, st: TreeState, query: Vec, order: seq<NodeID>, ps: seq<NodeID>)

  function MarkedNodes(r: Run): Nodes { Marked(r.gc, r.st, r.query) }

  function SweepOf(r: Run): seq<NodeID> { SweepList(r.gc.policy, MarkedNodes(r), r.order) }

  function GroupsOf(r: Run): Groups { MarkGroups(MarkedNodes(r), r.order) }

  /** The nodes between the sweep and the compaction. */
  function SweptNodes(r: Run): Nodes { Archive(MarkedNodes(r), Elems(SweepOf(r))) }

  predicate AreOrders(r: Run) {
    Enumerates(r.order, ActiveIds(r.st.nodes)) && Enumerates(r.ps, GroupsOf(r).Keys)
  }

  function Result(r: Run): Outcome {
    var w := CompactAll(r.gc, GroupsOf(r), Work(SweptNodes(r), SeqTokens(MarkedNodes(r), SweepOf(r)), []), r.ps);
    Outcome(w.nodes, SweepOf(r), w.freed, w.records)
  }

  lemma {:induction false} SweepListMembers(policy: Policy, nodes: Nodes, order: seq<NodeID>)
    ensures forall id :: id in SweepList(policy, nodes, order) <==>
              id in order && id in nodes && Sweepable(policy, nodes[id])
    ensures NoDup(order) ==> NoDup(SweepList(policy, nodes, order))
  {
    if order != [] {
      var front := order[..|order| - 1];
      assert order == front + [order[|order| - 1]];
      SweepListMembers(policy, nodes, front);
    }
  }

  lemma {:induction false} GroupOfMembers(nodes: Nodes, order: seq<NodeID>, p: NodeID)
    ensures forall id :: id in GroupOf(nodes, order, p) <==> id in order && id in nodes && InGroup(nodes[id], p)
    ensures NoDup(order) ==> NoDup(GroupOf(nodes, order, p))
  {
    if order != [] {
      var front := order[..|order| - 1];
      assert order == front + [order[|order| - 1]];
      GroupOfMembers(nodes, front, p);
    }
  }

  /** Every parent with candidates, and nothing else, has a group. */
  lemma GroupsAreNonEmpty(nodes: Nodes, order: seq<NodeID>, p: NodeID)
    requires p in MarkGroups(nodes, order)
    ensures p != NoID && MarkGroups(nodes, order)[p] != []
  {
    var id :| id in order && id in nodes && InGroup(nodes[id], nodes[id].parent) && nodes[id].parent == p;
    GroupOfMembers(nodes, order, p);
    assert id in GroupOf(nodes, order, p);
  }
}
