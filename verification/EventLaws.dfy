/** What one event does to the session's nodes, in terms of their scores and the limits of the policy. */
module EventLaws {
  import opened Collections
  import opened Domain
  import opened VectorMath
  import opened StateTree
  import opened Scoring
  import opened GarbageCollector
  import opened RunLaws
  import opened CollectorAtWork
  import opened GrownTrees
  import opened Worker
  import opened SessionRuns
  import opened TriggerLaws
  import opened SweepLaws

  // ---------------------------------------------------------------- what a score reads

  /** The nodes of `ids` with the title of node `id`, up to case. */
  function TitleMates(sc: Scorer, nodes: Nodes, ids: set<NodeID>, id: NodeID): set<NodeID>
    requires id in nodes && ids <= nodes.Keys
  {
    set o | o in ids && Title(sc, nodes[o]) == Title(sc, nodes[id])
  }

  /** The other nodes of `ids` that depend on node `id`. */
  function Dependers(nodes: Nodes, ids: set<NodeID>, id: NodeID): set<NodeID>
    requires ids <= nodes.Keys
  {
    set o | o in ids && o != id && id in nodes[o].dependencies
  }

  /** The score of node `id` as an active node, when the nodes of `ids` are the active ones. */
  function FreshScores(sc: Scorer, nodes: Nodes, ids: set<NodeID>, id: NodeID, turn: nat, query: Vec): Scores
    requires id in nodes && ids <= nodes.Keys
  {
    ScoreOf(sc, nodes[id].(status := Active), turn,
            |TitleMates(sc, nodes, ids, id)|, |Dependers(nodes, ids, id)|, query)
  }

  /** Node `id` has that score. */
  predicate IsFresh(sc: Scorer, nodes: Nodes, ids: set<NodeID>, id: NodeID, turn: nat, query: Vec) {
    id in nodes && ids <= nodes.Keys && nodes[id].scores == FreshScores(sc, nodes, ids, id, turn, query)
  }

  lemma ScoreReads(sc: Scorer, m: Node, n: Node, turn: nat, twins: nat, dependents: nat, query: Vec)
    requires Evolved(m, n) && m.status == Active
    ensures ScoreOf(sc, m, turn, twins, dependents, query)
         == ScoreOf(sc, n.(status := Active), turn, twins, dependents, query)
  {
  }

  /** A score can be read off the nodes as they are later. */
  lemma ScoreLater(sc: Scorer, before: Nodes, after: Nodes, id: NodeID, turn: nat, query: Vec)
    requires forall o :: o in ActiveIds(before) ==> o in after && Evolved(before[o], after[o])
    requires id in ActiveIds(before)
    ensures ActiveIds(before) <= after.Keys
    ensures ScoreNode(sc, before, ActiveIds(before), id, turn, query)
         == FreshScores(sc, after, ActiveIds(before), id, turn, query)
  {
    var ids := ActiveIds(before);
    assert Twins(sc, before, ids, Title(sc, before[id])) == TitleMates(sc, after, ids, id);
    assert Dependents(before, ids, id) == Dependers(after, ids, id);
    ScoreReads(sc, before[id], after[id], turn, |TitleMates(sc, after, ids, id)|, |Dependers(after, ids, id)|, query);
  }

  // ---------------------------------------------------------------- a run

  lemma RunScores(r: Run, id: NodeID)
    requires Grown(r.st) && AreOrders(r) && id in ActiveIds(r.st.nodes)
    ensures id in Result(r).nodes && Evolved(r.st.nodes[id], Result(r).nodes[id])
    ensures Result(r).nodes[id].scores
         == ScoreNode(r.gc.scorer, r.st.nodes, ActiveIds(r.st.nodes), id, r.st.turns, r.query)
    ensures Result(r).nodes[id].status == Active <==> id !in Result(r).swept
  {
    GrownRunIsRun(r);
    GrownTreesNeverCompact(r);
    OldNodesEvolve(r, id);
    assert FoldedBy(Result(r)) == {};
  }

  lemma RunLeavesFresh(r: Run, id: NodeID)
    requires Grown(r.st) && AreOrders(r) && id in ActiveIds(r.st.nodes)
    ensures IsFresh(r.gc.scorer, Result(r).nodes, ActiveIds(r.st.nodes), id, r.st.turns, r.query)
  {
    forall o | o in ActiveIds(r.st.nodes) ensures o in Result(r).nodes && Evolved(r.st.nodes[o], Result(r).nodes[o]) {
      RunScores(r, o);
    }
    RunScores(r, id);
    ScoreLater(r.gc.scorer, r.st.nodes, Result(r).nodes, id, r.st.turns, r.query);
  }

  lemma RescoringLeavesFresh(sc: Scorer, st: TreeState, query: Vec, nodes': Nodes, id: NodeID)
    requires nodes' == Rescored(sc, st.nodes, ActiveIds(st.nodes), st.turns, query) && id in ActiveIds(st.nodes)
    ensures IsFresh(sc, nodes', ActiveIds(st.nodes), id, st.turns, query)
  {
    ScoreLater(sc, st.nodes, nodes', id, st.turns, query);
  }

  // ---------------------------------------------------------------- an event

  /** The nodes that are active once the event's own node is in the tree. */
  function Present(s: Session): set<NodeID> {
    ActiveIds(s.tree.nodes) + {NewID(s)}
  }

  lemma PresentIs(env: Env, s: Session, i: Input)
    requires NewID(s) !in s.tree.nodes
    ensures ActiveIds(Scored(env, s, i).nodes) == Present(s)
    ensures ActiveIds(WithNode(env, s, i).nodes) == ActiveIds(Scored(env, s, i).nodes)
    ensures WithNode(env, s, i).turns == s.tree.turns + 1
  {
    NewNodeBeforeGC(env, s, i);
    OldNodesKeep(env, s, i);
    assert forall id :: id in WithNode(env, s, i).nodes <==> id in Scored(env, s, i).nodes;
  }

  /** After an event every node that is or was active has the score that its own fields, the new turn,
      the anchor, and the twins and dependents among the nodes active with the event's own determine. */
  lemma ScoresAreFresh(env: Env, c: Config, i: Input, id: NodeID)
    requires Inv(env, c) && Allowed(env, c.s, i) && id in Present(c.s)
    ensures var s := Process(env, c, i).s;
      IsFresh(env.gc.scorer, s.tree.nodes, Present(c.s), id, c.s.tree.turns + 1, s.anchor)
  {
    NewIDIsNew(c.s);
    PresentIs(env, c.s, i);
    if Reason(env, c.s, i) == NoReason {
      RescoringLeavesFresh(env.gc.scorer, WithNode(env, c.s, i), NewAnchor(c.s, i), Scored(env, c.s, i).nodes, id);
    } else {
      ScoredIsGrown(env, c.s, i);
      RunLeavesFresh(GCRun(env, c.s, i), id);
    }
  }

  // ---------------------------------------------------------------- when an event collects

  /** Whether processing the event ran the collector. */
  ghost predicate Collects(env: Env, c: Config, i: Input) {
    Process(env, c, i).s.gcRuns != c.s.gcRuns
  }

  lemma CollectsIff(env: Env, c: Config, i: Input)
    ensures Collects(env, c, i) <==> Reason(env, c.s, i) != NoReason
    ensures !Collects(env, c, i) ==> Process(env, c, i).s.tree == Scored(env, c.s, i)
    ensures Collects(env, c, i) ==> Process(env, c, i).s.tree.nodes == Result(GCRun(env, c.s, i)).nodes
  {
  }

  /** An event that does not collect leaves everything within its limit: the active tokens within the
      budget that counts and its soft limit, the number of active nodes, the depth, the width, and the
      average retention of the active nodes, which `ScoresAreFresh` says are fresh. */
  lemma QuietEventsStayWithin(env: Env, c: Config, i: Input)
    requires Inv(env, c) && Allowed(env, c.s, i) && !Collects(env, c, i)
    ensures var st := Process(env, c, i).s.tree;
      WithinLimits(env.gc.policy, st, ActiveTokens(st.nodes), LimitFor(env.gc.policy, i.budget))
  {
    CollectsIff(env, c, i);
    ScoredIsGrown(env, c.s, i);
    QuietIff(env.gc.policy, Scored(env, c.s, i), i.stats, ActiveTokens(Scored(env, c.s, i).nodes), i.budget);
  }

  /** An event that takes the active tokens over a positive budget collects. */
  lemma PressureCollects(env: Env, c: Config, i: Input)
    requires Inv(env, c) && Allowed(env, c.s, i)
    requires 0 < LimitFor(env.gc.policy, i.budget) < ActiveTokens(c.s.tree.nodes) + i.ev.tokens
    ensures Process(env, c, i).s.gcRuns == c.s.gcRuns + 1
  {
    AddedTokens(env, c.s, i);
    PressureIff(env.gc.policy, Scored(env, c.s, i).nodes, i.stats, ActiveTokens(Scored(env, c.s, i).nodes), i.budget);
    CollectsIff(env, c, i);
  }

  // ---------------------------------------------------------------- which nodes an event archives

  /** Spared by a run: it carries facts or decisions, scores at the threshold or above it, or is a
      decision and the positive floor is at the threshold or above it. */
  predicate Spared(policy: Policy, n: Node) {
    n.facts != [] || n.decisions != [] || n.scores.retention >= policy.lowRelevance
    || (n.kind == NodeDecision && 0.0 < policy.decisionFloor && policy.lowRelevance <= policy.decisionFloor)
  }

  lemma RunSpares(r: Run, id: NodeID)
    requires Grown(r.st) && AreOrders(r) && id in ActiveIds(r.st.nodes)
    ensures id in Result(r).nodes
    ensures Result(r).nodes[id].status == if Spared(r.gc.policy, Result(r).nodes[id]) then Active else Archived
  {
    RunScores(r, id);
    SweptIff(r, id);
    GrownRunIsRun(r);
    OldNodesEvolve(r, id);
  }

  /** Of the nodes that were active with the event's own among them, exactly those stay active that the
      event's run spared, by the scores they are left with; all of them if there was no run. */
  lemma StatusAfterEvent(env: Env, c: Config, i: Input, id: NodeID)
    requires Inv(env, c) && Allowed(env, c.s, i) && id in Present(c.s)
    ensures var nodes := Process(env, c, i).s.tree.nodes;
      id in nodes
      && nodes[id].status == if !Collects(env, c, i) || Spared(env.gc.policy, nodes[id]) then Active else Archived
  {
    NewIDIsNew(c.s);
    PresentIs(env, c.s, i);
    CollectsIff(env, c, i);
    if Collects(env, c, i) {
      ScoredIsGrown(env, c.s, i);
      RunSpares(GCRun(env, c.s, i), id);
    }
  }

  /** No other node is active afterwards. */
  lemma ActiveArePresent(env: Env, c: Config, i: Input, id: NodeID)
    requires Inv(env, c) && Allowed(env, c.s, i) && id in ActiveIds(Process(env, c, i).s.tree.nodes)
    ensures id in Present(c.s)
  {
    if id in c.s.tree.nodes {
      ActiveWereActive(env, c, i, id);
    } else {
      OneNewNode(env, c, i, id);
    }
  }

  lemma ActiveWereActive(env: Env, c: Config, i: Input, id: NodeID)
    requires Inv(env, c) && Allowed(env, c.s, i)
    requires id in c.s.tree.nodes && id in ActiveIds(Process(env, c, i).s.tree.nodes)
    ensures id in ActiveIds(c.s.tree.nodes)
  {
    ProcessAges(env, c, i, id);
  }

  // ---------------------------------------------------------------- counters and records

  /** The query vector that scores are measured against is that of the latest user prompt that had one;
      every event counts, and every user prompt counts as a turn. */
  lemma CountersAfterEvent(env: Env, c: Config, i: Input)
    ensures var s, prompt := Process(env, c, i).s, i.ev.kind == EventUserPrompt;
      s.anchor == (if prompt && i.vec.Some? then i.vec.value else c.s.anchor)
      && s.events == c.s.events + 1 && s.turns == c.s.turns + if prompt then 1 else 0
  {
  }

  /** The durable record of the event's node has everything the event put on it. */
  lemma EventNodeIsRecorded(env: Env, c: Config, i: Input)
    requires Inv(env, c) && Allowed(env, c.s, i)
    ensures NewID(c.s) in Process(env, c, i).db
    ensures Evolved(EventNode(env, c.s, i), Process(env, c, i).db[NewID(c.s)])
  {
    NewIDIsNew(c.s);
    StoredNode(env, c, i);
    RecordIsEventNode(env, c.s, i);
    EventNodeIsStored(env, c, i);
    RecordsAfterEvent(env, c, i);
  }

  lemma RecordsAfterEvent(env: Env, c: Config, i: Input)
    requires NewID(c.s) in Stored(env, c, i) && NewID(c.s) in Process(env, c, i).s.tree.nodes
    ensures NewID(c.s) in Process(env, c, i).db
    ensures var rec := Process(env, c, i).db[NewID(c.s)];
      rec == Stored(env, c, i)[NewID(c.s)] || rec == Process(env, c, i).s.tree.nodes[NewID(c.s)]
  {
    CollectsIff(env, c, i);
  }

  lemma RecordIsEventNode(env: Env, s: Session, i: Input)
    requires NewID(s) !in s.tree.nodes
    ensures NewID(s) in WithNode(env, s, i).nodes && Evolved(EventNode(env, s, i), WithNode(env, s, i).nodes[NewID(s)])
  {
    EventNodeIsNew(env, s, i);
  }

  // ---------------------------------------------------------------- over whole runs

  /** After every event of every run the active nodes have fresh scores, and either everything is within
      its limit or every active node is one that a run spares. */
  lemma AfterEveryEvent(env: Env, cs: seq<Config>, ins: seq<Input>, k: nat)
    requires IsTrace(env, cs, ins) && Inv(env, cs[0]) && k < |ins|
    ensures var s := cs[k + 1].s;
      && (forall id :: id in ActiveIds(s.tree.nodes) ==>
            IsFresh(env.gc.scorer, s.tree.nodes, Present(cs[k].s), id, s.tree.turns, s.anchor))
      && (WithinLimits(env.gc.policy, s.tree, ActiveTokens(s.tree.nodes), LimitFor(env.gc.policy, ins[k].budget))
          || forall id :: id in ActiveIds(s.tree.nodes) ==> Spared(env.gc.policy, s.tree.nodes[id]))
  {
    InvAlways(env, cs, ins, k);
    assert StepAt(env, cs, ins, k);
    AfterEvent(env, cs[k], ins[k], cs[k + 1]);
  }

  lemma AfterEvent(env: Env, c: Config, i: Input, c': Config)
    requires Inv(env, c) && Allowed(env, c.s, i) && c' == Process(env, c, i)
    ensures var s := c'.s;
      && (forall id :: id in ActiveIds(s.tree.nodes) ==>
            IsFresh(env.gc.scorer, s.tree.nodes, Present(c.s), id, s.tree.turns, s.anchor))
      && (WithinLimits(env.gc.policy, s.tree, ActiveTokens(s.tree.nodes), LimitFor(env.gc.policy, i.budget))
          || forall id :: id in ActiveIds(s.tree.nodes) ==> Spared(env.gc.policy, s.tree.nodes[id]))
  {
    TurnAfterEvent(env, c, i);
    forall id | id in ActiveIds(c'.s.tree.nodes)
      ensures IsFresh(env.gc.scorer, c'.s.tree.nodes, Present(c.s), id, c'.s.tree.turns, c'.s.anchor)
      ensures Collects(env, c, i) ==> Spared(env.gc.policy, c'.s.tree.nodes[id])
    {
      ActiveArePresent(env, c, i, id);
      ScoresAreFresh(env, c, i, id);
      StatusAfterEvent(env, c, i, id);
    }
    if !Collects(env, c, i) {
      QuietEventsStayWithin(env, c, i);
    }
  }

  lemma TurnAfterEvent(env: Env, c: Config, i: Input)
    ensures Process(env, c, i).s.tree.turns == c.s.tree.turns + 1
  {
  }

  /** In every state of every run every node that has a parent is among its parent's children. */
  lemma LinkedAlways(env: Env, cs: seq<Config>, ins: seq<Input>, k: nat, id: NodeID)
    requires IsTrace(env, cs, ins) && Inv(env, cs[0]) && k < |cs| && id in cs[k].s.tree.nodes
    ensures Linked(cs[k].s.tree.nodes, id)
  {
    InvAlways(env, cs, ins, k);
  }
}
