/** The session worker, one event at a time: what `processEvent` does to the tree, the metrics, the two
    indices and the durable node records, as a function on values, and what every run of it keeps. */
module Worker {
  import opened Collections
  import opened Domain
  import opened Facts
  import opened VectorMath
  import opened VectorIndex
  import opened StateTree
  import opened Scoring
  import opened GarbageCollector
  import opened RunLaws
  import opened CollectorAtWork
  import opened GrownTrees

  /** What stays fixed over a session. */
  datatype Env = Env(texts: Texts, gc: Collector, dim: int)

  /** A session's state. The indices are the maps they stand for; an empty `anchor` is a missing one. */
  datatype Session = Session(
    tree: TreeState, active: Vectors, archive: Vectors, anchor: Vec,
    events: nat, turns: nat, gcRuns: nat, saved: int, branches: nat)

  /** A session together with its durable node records. */
  datatype Config = Config(s: Session, db: Nodes)

  /** One event, and what the outside world answers while it is processed: the embedding, the token
      budget at that moment, the parent that wins ties, and the orders in which maps are visited. */
  datatype Input = Input(ev: Event, vec: Option<Vec>, budget: int, parent: NodeID, stats: TreeStats,
                         order: seq<NodeID>, ps: seq<NodeID>)

  // ---------------------------------------------------------------- the steps of processEvent

  function NewID(s: Session): NodeID { EventNodeID(s.tree.session, s.tree.turns + 1) }

  /** The node for the event, with its embedding if there is one. */
  function EventNode(env: Env, s: Session, i: Input): Node {
    NewNode(env.texts, s.tree.session, s.tree.turns + 1, i.parent, i.ev)
      .(embedding := if i.vec.Some? then i.vec.value else [])
  }

  /** Steps 1 to 3: the tree with the new node in it. */
  function WithNode(env: Env, s: Session, i: Input): TreeState {
    Added(Next(s.tree), EventNode(env, s, i))
  }

  function WithVector(env: Env, s: Session, i: Input): Vectors {
    if i.vec.Some? && Insertable(env.dim, NewID(s), i.vec.value) then s.active[NewID(s) := i.vec.value] else s.active
  }

  function NewAnchor(s: Session, i: Input): Vec {
    if i.vec.Some? && i.ev.kind.EventUserPrompt? then i.vec.value else s.anchor
  }

  /** Step 5: the tree with fresh scores. */
  function Scored(env: Env, s: Session, i: Input): TreeState {
    var st := WithNode(env, s, i);
    st.(nodes := Rescored(env.gc.scorer, st.nodes, ActiveIds(st.nodes), st.turns, NewAnchor(s, i)))
  }

  ghost function Reason(env: Env, s: Session, i: Input): TriggerReason {
    var st := Scored(env, s, i);
    Trigger(env.gc.policy, st.nodes, i.stats, ActiveTokens(st.nodes), i.budget)
  }

  function GCRun(env: Env, s: Session, i: Input): Run {
    Run(env.gc, Scored(env, s, i), NewAnchor(s, i), i.order, i.ps)
  }

  /** The vectors that move from the active to the archive index when `before` becomes `after`. */
  function Dropped(before: Nodes, after: Nodes): set<NodeID> {
    ActiveIds(before) - ActiveIds(after)
  }

  function MovedVectors(dim: int, dropped: set<NodeID>, nodes: Nodes): Vectors {
    map id | id in dropped && id in nodes && Insertable(dim, id, nodes[id].embedding) :: nodes[id].embedding
  }

  /** The vectors of the two indices after those of `moved` have moved. */
  function Moved(dim: int, before: (Vectors, Vectors), nodes: Nodes, moved: set<NodeID>): (Vectors, Vectors) {
    (before.0 - moved, before.1 + MovedVectors(dim, moved, nodes))
  }

  /** The session before the trigger is looked at. */
  function Counted(env: Env, s: Session, i: Input): Session {
    Session(Scored(env, s, i), WithVector(env, s, i), s.archive, NewAnchor(s, i),
            s.events + 1, s.turns + if i.ev.kind.EventUserPrompt? then 1 else 0, s.gcRuns, s.saved, s.branches)
  }

  function Stored(env: Env, c: Config, i: Input): Nodes {
    var st := WithNode(env, c.s, i);
    if NewID(c.s) in st.nodes then c.db[NewID(c.s) := st.nodes[NewID(c.s)]] else c.db
  }

  /** What a garbage collection with this outcome does to a session and its records. */
  function Collected(env: Env, c: Config, out: Outcome): Config {
    var vectors := Moved(env.dim, (c.s.active, c.s.archive), out.nodes, Dropped(c.s.tree.nodes, out.nodes));
    var s' := c.s.(
      tree := c.s.tree.(nodes := out.nodes), active := vectors.0, archive := vectors.1,
      gcRuns := c.s.gcRuns + 1, saved := c.s.saved + out.freed, branches := c.s.branches + |out.records|);
    Config(s', if |out.swept| > 0 || |out.records| > 0 then c.db + out.nodes else c.db)
  }

  function AfterGC(env: Env, c: Config, i: Input): Config {
    Collected(env, Config(Counted(env, c.s, i), Stored(env, c, i)), Result(GCRun(env, c.s, i)))
  }

  /** `processEvent`. */
  ghost function Process(env: Env, c: Config, i: Input): Config {
    if Reason(env, c.s, i) == NoReason then Config(Counted(env, c.s, i), Stored(env, c, i))
    else AfterGC(env, c, i)
  }

  /** The answers an input may contain. */
  ghost predicate Allowed(env: Env, s: Session, i: Input) {
    && IsBestParent(Next(s.tree), EventNode(env, s, i).kind, i.parent)
    && (WellFormed(Scored(env, s, i)) ==> AreStats(Scored(env, s, i), i.stats))
    && (Reason(env, s, i) != NoReason ==> AreOrders(GCRun(env, s, i)))
  }

  // ---------------------------------------------------------------- the invariant

  /** The vectors of the nodes with a given status that an index can hold. */
  function VectorsWith(dim: int, nodes: Nodes, status: NodeStatus): Vectors {
    map id | id in nodes && nodes[id].status == status && Insertable(dim, id, nodes[id].embedding)
      :: nodes[id].embedding
  }

  /** The active index holds exactly the active nodes that have a vector of the right size, the archive
      index exactly the archived ones. */
  ghost predicate IndicesMatch(env: Env, s: Session) {
    s.active == VectorsWith(env.dim, s.tree.nodes, Active) && s.archive == VectorsWith(env.dim, s.tree.nodes, Archived)
  }

  /** The durable record of a node agrees with the node on status and embedding. Only the root, which
      has no embedding, may be missing. */
  ghost predicate RecordsMatch(nodes: Nodes, db: Nodes) {
    && (forall id :: id in db ==>
          id in nodes && db[id].status == nodes[id].status && db[id].embedding == nodes[id].embedding)
    && (forall id :: id in nodes && id !in db ==> id.RootID?)
  }

  ghost predicate Inv(env: Env, c: Config) {
    Grown(c.s.tree) && IndicesMatch(env, c.s) && RecordsMatch(c.s.tree.nodes, c.db)
  }

  // ---------------------------------------------------------------- it is kept

  lemma NewIDIsNew(s: Session)
    requires Grown(s.tree)
    ensures NewID(s) !in s.tree.nodes
  {
    NextTurnIsNew(s.tree);
  }

  lemma EventNodeIsNew(env: Env, s: Session, i: Input)
    ensures IsNewNode(Next(s.tree), EventNode(env, s, i)) && EventNode(env, s, i).id == NewID(s)
  {
    NewNodeIsNew(env.texts, Next(s.tree), i.ev, i.parent);
  }

  lemma WithNodeIsGrown(env: Env, s: Session, i: Input)
    requires Grown(s.tree) && IsBestParent(Next(s.tree), EventNode(env, s, i).kind, i.parent)
    ensures Grown(WithNode(env, s, i))
  {
    EventNodeIsNew(env, s, i);
    AddedIsGrown(s.tree, EventNode(env, s, i));
  }

  lemma ScoredIsGrown(env: Env, s: Session, i: Input)
    requires Grown(s.tree) && Allowed(env, s, i)
    ensures Grown(Scored(env, s, i))
  {
    WithNodeIsGrown(env, s, i);
    RescoredIsGrown(env.gc.scorer, WithNode(env, s, i), NewAnchor(s, i));
  }

  lemma RescoredIsGrown(sc: Scorer, st: TreeState, query: Vec)
    requires Grown(st)
    ensures Grown(st.(nodes := Rescored(sc, st.nodes, ActiveIds(st.nodes), st.turns, query)))
  {
    AgedIsGrown(st, Rescored(sc, st.nodes, ActiveIds(st.nodes), st.turns, query));
  }

  lemma ProcessKeepsGrown(env: Env, c: Config, i: Input)
    requires Grown(c.s.tree) && Allowed(env, c.s, i)
    ensures Grown(Process(env, c, i).s.tree)
  {
    ScoredIsGrown(env, c.s, i);
    if Reason(env, c.s, i) != NoReason {
      RunKeepsGrown(GCRun(env, c.s, i));
    }
  }

  /** What the new event does to an old node before garbage collection: scores and child links only. */
  lemma OldNodesBeforeGC(env: Env, s: Session, i: Input, id: NodeID)
    requires id in s.tree.nodes && NewID(s) !in s.tree.nodes
    ensures id in Scored(env, s, i).nodes && Evolved(s.tree.nodes[id], Scored(env, s, i).nodes[id])
    ensures Scored(env, s, i).nodes[id].status == s.tree.nodes[id].status
  {
    EventNodeIsNew(env, s, i);
    OldNodesAfterAdd(Next(s.tree), EventNode(env, s, i), id);
  }

  lemma NewNodeBeforeGC(env: Env, s: Session, i: Input)
    requires NewID(s) !in s.tree.nodes
    ensures Scored(env, s, i).nodes.Keys == s.tree.nodes.Keys + {NewID(s)}
    ensures Evolved(EventNode(env, s, i), Scored(env, s, i).nodes[NewID(s)])
    ensures Scored(env, s, i).nodes[NewID(s)].status == Active
  {
    EventNodeIsNew(env, s, i);
  }

  /** One more active node with a vector of its own. */
  lemma OneMoreVector(dim: int, nodes: Nodes, nodes': Nodes, id: NodeID, status: NodeStatus)
    requires id !in nodes && nodes'.Keys == nodes.Keys + {id} && nodes'[id].status == Active
    requires forall x :: x in nodes ==> nodes'[x].status == nodes[x].status && nodes'[x].embedding == nodes[x].embedding
    ensures VectorsWith(dim, nodes', status) ==
      if status == Active && Insertable(dim, id, nodes'[id].embedding)
      then VectorsWith(dim, nodes, status)[id := nodes'[id].embedding] else VectorsWith(dim, nodes, status)
  {
  }

  lemma OldNodesKeep(env: Env, s: Session, i: Input)
    requires NewID(s) !in s.tree.nodes
    ensures forall id :: id in s.tree.nodes ==>
      id in Scored(env, s, i).nodes
      && Scored(env, s, i).nodes[id].status == s.tree.nodes[id].status
      && Scored(env, s, i).nodes[id].embedding == s.tree.nodes[id].embedding
  {
    forall id | id in s.tree.nodes
      ensures id in Scored(env, s, i).nodes
        && Scored(env, s, i).nodes[id].status == s.tree.nodes[id].status
        && Scored(env, s, i).nodes[id].embedding == s.tree.nodes[id].embedding
    {
      OldNodesBeforeGC(env, s, i, id);
    }
  }

  lemma CountedIndicesMatch(env: Env, s: Session, i: Input)
    requires IndicesMatch(env, s) && NewID(s) !in s.tree.nodes
    ensures IndicesMatch(env, Counted(env, s, i))
  {
    NewNodeBeforeGC(env, s, i);
    OldNodesKeep(env, s, i);
    var nodes' := Scored(env, s, i).nodes;
    assert nodes'[NewID(s)].embedding == if i.vec.Some? then i.vec.value else [];
    OneMoreVector(env.dim, s.tree.nodes, nodes', NewID(s), Active);
    OneMoreVector(env.dim, s.tree.nodes, nodes', NewID(s), Archived);
  }

  /** One more node with a record of its own. */
  lemma OneMoreRecord(nodes: Nodes, nodes': Nodes, db: Nodes, id: NodeID, rec: Node)
    requires RecordsMatch(nodes, db) && nodes'.Keys == nodes.Keys + {id}
    requires rec.status == nodes'[id].status && rec.embedding == nodes'[id].embedding
    requires forall x :: x in nodes ==> nodes'[x].status == nodes[x].status && nodes'[x].embedding == nodes[x].embedding
    ensures RecordsMatch(nodes', db[id := rec])
  {
  }

  lemma StoredNode(env: Env, c: Config, i: Input)
    requires NewID(c.s) !in c.s.tree.nodes
    ensures NewID(c.s) in WithNode(env, c.s, i).nodes && NewID(c.s) in Scored(env, c.s, i).nodes
    ensures var rec := WithNode(env, c.s, i).nodes[NewID(c.s)];
      rec.status == Scored(env, c.s, i).nodes[NewID(c.s)].status
      && rec.embedding == Scored(env, c.s, i).nodes[NewID(c.s)].embedding
      && Stored(env, c, i) == c.db[NewID(c.s) := rec]
  {
    EventNodeIsNew(env, c.s, i);
  }

  lemma StoredRecordsMatch(env: Env, c: Config, i: Input)
    requires RecordsMatch(c.s.tree.nodes, c.db) && NewID(c.s) !in c.s.tree.nodes
    ensures RecordsMatch(Scored(env, c.s, i).nodes, Stored(env, c, i))
  {
    NewNodeBeforeGC(env, c.s, i);
    OldNodesKeep(env, c.s, i);
    StoredNode(env, c, i);
    OneMoreRecord(c.s.tree.nodes, Scored(env, c.s, i).nodes, c.db, NewID(c.s),
                  WithNode(env, c.s, i).nodes[NewID(c.s)]);
  }

  lemma CountedMatches(env: Env, c: Config, i: Input)
    requires Inv(env, c) && Allowed(env, c.s, i)
    ensures IndicesMatch(env, Counted(env, c.s, i)) && RecordsMatch(Scored(env, c.s, i).nodes, Stored(env, c, i))
  {
    NewIDIsNew(c.s);
    CountedIndicesMatch(env, c.s, i);
    StoredRecordsMatch(env, c, i);
  }

  lemma AfterGCMatches(env: Env, c: Config, i: Input)
    requires Inv(env, c) && Allowed(env, c.s, i) && Reason(env, c.s, i) != NoReason
    ensures IndicesMatch(env, AfterGC(env, c, i).s)
      && RecordsMatch(AfterGC(env, c, i).s.tree.nodes, AfterGC(env, c, i).db)
  {
    CountedMatches(env, c, i);
    ScoredIsGrown(env, c.s, i);
    CollectedMatches(env, Config(Counted(env, c.s, i), Stored(env, c, i)), GCRun(env, c.s, i));
  }

  /** A run on a grown tree archives what it sweeps and touches no other status and no embedding. */
  lemma RunOnlySweeps(r: Run)
    requires Grown(r.st) && AreOrders(r)
    ensures Result(r).nodes.Keys == r.st.nodes.Keys && Result(r).swept == SweepOf(r) && Result(r).records == []
    ensures forall id :: id in r.st.nodes ==>
      Result(r).nodes[id].embedding == r.st.nodes[id].embedding
      && Result(r).nodes[id].status == if id in SweepOf(r) then Archived else r.st.nodes[id].status
    ensures forall id :: id in Dropped(r.st.nodes, Result(r).nodes) <==> id in SweepOf(r)
  {
    GrownTreesNeverCompact(r);
    Marking(r);
  }

  lemma CollectedMatches(env: Env, c: Config, r: Run)
    requires Grown(r.st) && AreOrders(r) && r.st == c.s.tree
    requires IndicesMatch(env, c.s) && RecordsMatch(c.s.tree.nodes, c.db)
    ensures var c' := Collected(env, c, Result(r)); IndicesMatch(env, c'.s) && RecordsMatch(c'.s.tree.nodes, c'.db)
  {
    var before, after := r.st.nodes, Result(r).nodes;
    RunOnlySweeps(r);
    MoveMatches(env, before, after, Dropped(before, after));
    RecordsRewritten(before, after, c.db);
    if SweepOf(r) == [] {
      RecordsUntouched(before, after, c.db);
    }
  }

  lemma RecordsRewritten(before: Nodes, after: Nodes, db: Nodes)
    requires RecordsMatch(before, db) && after.Keys == before.Keys
    ensures RecordsMatch(after, db + after)
  {
  }

  lemma RecordsUntouched(before: Nodes, after: Nodes, db: Nodes)
    requires RecordsMatch(before, db) && after.Keys == before.Keys
    requires forall id :: id in before ==>
      after[id].status == before[id].status && after[id].embedding == before[id].embedding
    ensures RecordsMatch(after, db)
  {
  }

  /** Moving the vectors of the nodes that were archived keeps both indices in step. */
  lemma MoveMatches(env: Env, before: Nodes, after: Nodes, dropped: set<NodeID>)
    requires after.Keys == before.Keys
    requires forall id :: id in before ==> after[id].embedding == before[id].embedding
    requires forall id :: id in dropped ==> id in before && before[id].status == Active
    requires forall id :: id in before ==> after[id].status == if id in dropped then Archived else before[id].status
    ensures VectorsWith(env.dim, after, Active) == VectorsWith(env.dim, before, Active) - dropped
    ensures VectorsWith(env.dim, after, Archived)
         == VectorsWith(env.dim, before, Archived) + MovedVectors(env.dim, dropped, after)
  {
  }

  /** Processing an event keeps the tree grown, both indices in step with the node statuses, and the
      durable records in step with the tree. */
  lemma ProcessKeepsInv(env: Env, c: Config, i: Input)
    requires Inv(env, c) && Allowed(env, c.s, i)
    ensures Inv(env, Process(env, c, i))
  {
    ProcessKeepsGrown(env, c, i);
    if Reason(env, c.s, i) == NoReason {
      CountedMatches(env, c, i);
    } else {
      AfterGCMatches(env, c, i);
    }
  }
}
