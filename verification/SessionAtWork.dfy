/** The session worker as the program runs it: a tree, two indices and the durable records, updated in
    place. Every method is tied to the functions of module `Worker`. */
module SessionAtWork {
  import opened Collections
  import opened Domain
  import opened Facts
  import opened VectorMath
  import opened VectorIndex
  import opened StateTree
  import opened Scoring
  import opened GarbageCollector
  import opened CollectorAtWork
  import opened GrownTrees
  import opened Worker
  import opened SessionRuns

  /** What the database holds about one session: the raw events in the order of their arrival, without
      sequence numbers, a record per node, and the latest snapshot. */
  class NodeStore {
    var events: seq<Event>
    var records: Nodes
    var snapshot: seq<Node>

    constructor ()
      ensures events == [] && records == map[] && snapshot == []
    {
      events, records, snapshot := [], map[], [];
    }
  }

  // ---------------------------------------------------------------- facts about the steps

  function WithEmbedding(nodes: Nodes, id: NodeID, vec: Option<Vec>): Nodes {
    if vec.Some? && id in nodes then nodes[id := nodes[id].(embedding := vec.value)] else nodes
  }

  lemma EmbeddingAfterAdd(st: TreeState, node: Node, vec: Option<Vec>)
    requires node.parent != node.id && node.embedding == []
    ensures var bare := Added(st, node);
      node.id in bare.nodes
      && Added(st, node.(embedding := if vec.Some? then vec.value else []))
         == bare.(nodes := WithEmbedding(bare.nodes, node.id, vec))
  {
  }

  lemma BestParentExists(st: TreeState, kind: NodeType, parent: NodeID)
    requires Grown(st) && IsBestParent(Next(st), kind, parent)
    ensures parent in st.nodes
  {
  }

  /** The new node is stored first and gets its embedding afterwards. */
  lemma EmbeddedLater(env: Env, s: Session, i: Input, bare: TreeState)
    requires Grown(s.tree) && IsBestParent(Next(s.tree), Classify(env.texts.lower, i.ev), i.parent)
    requires bare == Added(Next(s.tree), NewNode(env.texts, s.tree.session, s.tree.turns + 1, i.parent, i.ev))
    ensures IsBestParent(Next(s.tree), EventNode(env, s, i).kind, i.parent)
    ensures NewID(s) == EventNodeID(s.tree.session, s.tree.turns + 1) && NewID(s) in bare.nodes
    ensures WithNode(env, s, i) == bare.(nodes := WithEmbedding(bare.nodes, NewID(s), i.vec))
  {
    NewIDIsNew(s);
    BestParentExists(s.tree, Classify(env.texts.lower, i.ev), i.parent);
    EmbeddingAfterAdd(Next(s.tree), NewNode(env.texts, s.tree.session, s.tree.turns + 1, i.parent, i.ev), i.vec);
  }

  /** The steps before garbage collection depend on the event, its embedding and the parent only. */
  lemma StepsReadLittle(env: Env, c: Config, i: Input, j: Input)
    requires i.ev == j.ev && i.vec == j.vec && i.parent == j.parent
    ensures WithNode(env, c.s, i) == WithNode(env, c.s, j) && Scored(env, c.s, i) == Scored(env, c.s, j)
    ensures Counted(env, c.s, i) == Counted(env, c.s, j) && Stored(env, c, i) == Stored(env, c, j)
  {
  }

  lemma RescoredStaysActive(sc: Scorer, nodes: Nodes, ids: set<NodeID>, turn: nat, query: Vec)
    ensures ActiveIds(Rescored(sc, nodes, ids, turn, query)) == ActiveIds(nodes)
  {
  }

  /** `r` is a run of the garbage collector on this session. */
  ghost predicate RunsOn(env: Env, s: Session, r: Run) {
    r.gc == env.gc && r.st == s.tree && r.query == s.anchor && AreOrders(r)
  }

  /** The steps put together. */
  lemma Assembled(env: Env, before: Config, between: Config, h: Input, i: Input, reason: TriggerReason, r: Run,
                  after: Config)
    requires i == h.(budget := i.budget, stats := i.stats, order := r.order, ps := r.ps)
    requires IsBestParent(Next(before.s.tree), EventNode(env, before.s, h).kind, h.parent)
    requires between == Config(Counted(env, before.s, h), Stored(env, before, h))
    requires WellFormed(between.s.tree) && AreStats(between.s.tree, i.stats)
    requires var nodes := between.s.tree.nodes;
      reason == Trigger(env.gc.policy, nodes, i.stats, ActiveTokens(nodes), i.budget)
    requires if reason == NoReason then after == between
             else RunsOn(env, between.s, r) && after == Collected(env, between, Result(r))
    ensures Allowed(env, before.s, i) && after == Process(env, before, i)
  {
    StepsReadLittle(env, before, h, i);
    assert reason == Reason(env, before.s, i);
    if reason != NoReason {
      assert GCRun(env, before.s, i) == r;
    }
  }

  /** Fresh scores for the active nodes, and one more event counted. */
  function WithScores(sc: Scorer, s: Session, prompt: bool): Session {
    s.(tree := s.tree.(nodes := Rescored(sc, s.tree.nodes, ActiveIds(s.tree.nodes), s.tree.turns, s.anchor)),
       events := s.events + 1, turns := s.turns + if prompt then 1 else 0)
  }

  /** The parts of a session before the trigger is looked at. */
  lemma CountedIs(env: Env, s: Session, i: Input, now: Session, after: Session)
    requires now == s.(tree := WithNode(env, s, i), active := WithVector(env, s, i), anchor := NewAnchor(s, i))
    requires after == WithScores(env.gc.scorer, now, i.ev.kind == EventUserPrompt)
    ensures after == Counted(env, s, i)
  {
  }

  /** The parts of a session once the new node is in place. */
  lemma RecordedIs(env: Env, before: Config, i: Input, s: Session, db: Nodes)
    requires s.tree == WithNode(env, before.s, i) && NewID(before.s) in s.tree.nodes
    requires var now := before.s.(tree := s.tree); s == now.(
      active := if i.vec.Some? && Insertable(env.dim, NewID(before.s), i.vec.value)
                then now.active[NewID(before.s) := i.vec.value] else now.active,
      anchor := if i.vec.Some? && i.ev.kind == EventUserPrompt then i.vec.value else now.anchor)
    requires db == before.db[NewID(before.s) := s.tree.nodes[NewID(before.s)]]
    ensures s == before.s.(tree := WithNode(env, before.s, i), active := WithVector(env, before.s, i),
                           anchor := NewAnchor(before.s, i))
    ensures db == Stored(env, before, i)
  {
  }

  function WithNodes(s: Session, nodes: Nodes): Session {
    s.(tree := s.tree.(nodes := nodes))
  }

  /** The parts of a collected configuration. */
  lemma CollectedIs(env: Env, before: Config, out: Outcome, after: Config)
    requires (after.s.active, after.s.archive) ==
      Moved(env.dim, (before.s.active, before.s.archive), out.nodes,
            ActiveIds(before.s.tree.nodes) - ActiveIds(out.nodes))
    requires after.s == WithNodes(before.s, out.nodes).(active := after.s.active, archive := after.s.archive,
      gcRuns := before.s.gcRuns + 1, saved := before.s.saved + out.freed, branches := before.s.branches + |out.records|)
    requires after.db == if |out.swept| > 0 || |out.records| > 0 then before.db + out.nodes else before.db
    ensures after == Collected(env, before, out)
  {
  }

  /** What archiving the vector of node `id` does to the archive index. */
  function WithMoved(dim: int, archive: Vectors, nodes: Nodes, id: NodeID): Vectors {
    if id in nodes && Insertable(dim, id, nodes[id].embedding) then archive[id := nodes[id].embedding] else archive
  }

  lemma MovedOneMore(dim: int, moved: set<NodeID>, nodes: Nodes, id: NodeID)
    ensures MovedVectors(dim, moved + {id}, nodes) == WithMoved(dim, MovedVectors(dim, moved, nodes), nodes, id)
  {
  }

  lemma UpdateAfterUnion(archive: Vectors, moved: Vectors, id: NodeID, vec: Vec)
    ensures (archive + moved)[id := vec] == archive + moved[id := vec]
  {
  }

  /** The ids looked at so far that are no longer active. */
  function Gone(preIDs: set<NodeID>, rest: set<NodeID>, post: set<NodeID>): set<NodeID> {
    preIDs - rest - post
  }

  lemma MoveStep(dim: int, before: (Vectors, Vectors), nodes: Nodes, moved: set<NodeID>, id: NodeID)
    ensures var now := Moved(dim, before, nodes, moved);
      Moved(dim, before, nodes, moved + {id}) == (now.0 - {id}, WithMoved(dim, now.1, nodes, id))
  {
    MovedOneMore(dim, moved, nodes, id);
    if id in nodes {
      UpdateAfterUnion(before.1, MovedVectors(dim, moved, nodes), id, nodes[id].embedding);
    }
    assert before.0 - moved - {id} == before.0 - (moved + {id});
  }

  lemma GoneStep(preIDs: set<NodeID>, rest: set<NodeID>, post: set<NodeID>, id: NodeID)
    requires id in rest && rest <= preIDs
    ensures Gone(preIDs, rest - {id}, post) ==
      if id in post then Gone(preIDs, rest, post) else Gone(preIDs, rest, post) + {id}
  {
  }

  lemma MoveNothing(dim: int, before: (Vectors, Vectors), nodes: Nodes, preIDs: set<NodeID>, post: set<NodeID>)
    ensures Moved(dim, before, nodes, Gone(preIDs, preIDs, post)) == before
  {
    assert Gone(preIDs, preIDs, post) == {};
    assert before.0 - {} == before.0;
    assert before.1 + MovedVectors(dim, {}, nodes) == before.1;
  }

  lemma CountedIsGrown(env: Env, s: Session, i: Input)
    requires Grown(s.tree) && IsBestParent(Next(s.tree), EventNode(env, s, i).kind, i.parent)
    ensures Grown(Counted(env, s, i).tree)
  {
    WithNodeIsGrown(env, s, i);
    RescoredIsGrown(env.gc.scorer, WithNode(env, s, i), NewAnchor(s, i));
  }

  lemma ByIdSnoc(nodes: seq<Node>, n: Node)
    requires DistinctIds(nodes) && n.id !in ById(nodes)
    ensures DistinctIds(nodes + [n]) && ById(nodes + [n]) == ById(nodes)[n.id := n]
  {
    ByIdKeys(nodes, n.id);
    assert (nodes + [n])[..|nodes|] == nodes;
  }

  // ---------------------------------------------------------------- the session

  /** An index primed with the stored vectors. */
  method PrimedIndex(dim: int, items: Vectors) returns (ix: HNSWIndex)
    ensures fresh(ix) && ix.Valid() && ix.dim == dim && Live(ix.State()) == Rebuilt(dim, items)
  {
    ix := new HNSWIndex(dim);
    if |items| > 0 {
      ix.RebuildFromVectors(items);
    } else {
      assert items == map[];
    }
  }

  method Remember(ix: HNSWIndex, id: NodeID, vec: Vec)
    requires ix.Valid()
    modifies ix
    ensures ix.Valid()
    ensures Live(ix.State())
         == if Insertable(ix.dim, id, vec) then Live(old(ix.State()))[id := vec] else Live(old(ix.State()))
  {
    var inserted := ix.Insert(id, vec);
  }

  method Forget(ix: HNSWIndex, id: NodeID)
    requires ix.Valid()
    modifies ix
    ensures ix.Valid() && Live(ix.State()) == Live(old(ix.State())) - {id}
  {
    var stored := ix.Delete(id);
  }

  method Attach(tree: Tree, id: NodeID, vec: Option<Vec>)
    modifies tree`nodes
    ensures tree.State() == old(tree.State()).(nodes := WithEmbedding(old(tree.nodes), id, vec))
  {
    if vec.Some? && id in tree.nodes {
      tree.nodes := tree.nodes[id := tree.nodes[id].(embedding := vec.value)];
    }
  }

  /** Step 2: the next turn's node, without an embedding. */
  method AddNextNode(t: Texts, tree: Tree, ev: Event) returns (id: NodeID, ghost parent: NodeID)
    modifies tree`nodes, tree`turnCount
    ensures var st := old(tree.State());
      && IsBestParent(Next(st), Classify(t.lower, ev), parent) && id == EventNodeID(st.session, st.turns + 1)
      && tree.State() == Added(Next(st), NewNode(t, st.session, st.turns + 1, parent, ev))
  {
    var turn := tree.IncrementTurn();
    id, parent := tree.AddNode(t, ev);
  }

  /** Step 2 and the part of step 3 that concerns the tree. */
  method AddEventNode(env: Env, tree: Tree, ghost s: Session, ev: Event, vec: Option<Vec>)
    returns (id: NodeID, ghost i: Input)
    requires s.tree == tree.State() && Grown(s.tree)
    modifies tree`nodes, tree`turnCount
    ensures i.ev == ev && i.vec == vec && id == NewID(s)
    ensures IsBestParent(Next(s.tree), EventNode(env, s, i).kind, i.parent)
    ensures tree.State() == WithNode(env, s, i) && id in tree.nodes
  {
    ghost var parent;
    id, parent := AddNextNode(env.texts, tree, ev);
    i := Input(ev, vec, 0, parent, TreeStats(0, 0, 0, 0, 0, 0), [], []);
    ghost var bare := tree.State();
    EmbeddedLater(env, s, i, bare);
    Attach(tree, id, vec);
    assert tree.State() == bare.(nodes := WithEmbedding(bare.nodes, id, vec));
  }

  method ScoreActive(sc: Scorer, tree: Tree, query: Vec) returns (active: seq<NodeID>)
    modifies tree`nodes
    ensures Enumerates(active, ActiveIds(tree.nodes))
    ensures var st := old(tree.State());
      tree.State() == st.(nodes := Rescored(sc, st.nodes, ActiveIds(st.nodes), st.turns, query))
  {
    active := tree.GetActiveNodes();
    assert forall i :: 0 <= i < |active| ==> active[i] in Elems(active);
    ScoreAll(sc, tree, active, tree.turnCount, query);
    RescoredStaysActive(sc, old(tree.nodes), ActiveIds(old(tree.nodes)), tree.turnCount, query);
  }

  /** The tree of a session: restored from the snapshot, or new if there is none. */
  method OpenTree(session: string, snapshot: seq<Node>) returns (tree: Tree)
    ensures fresh(tree)
    ensures tree.State() == if snapshot == [] then NewTreeState(session) else RestoredFrom(session, snapshot)
  {
    if |snapshot| > 0 {
      tree := new Tree.RestoreFromSnapshot(session, snapshot);
    } else {
      tree := new Tree(session);
    }
  }

  class SessionState {
    const tree: Tree
    const activeIndex: HNSWIndex
    const archiveIndex: HNSWIndex
    const store: NodeStore
    var anchor: Vec
    var tokenBudget: int
    var totalEvents: nat
    var totalTurns: nat
    var gcRuns: nat
    var tokensSaved: int
    var branchesCompressed: nat

    ghost function State(): Session
      reads this, tree, activeIndex, archiveIndex
    {
      Session(tree.State(), Live(activeIndex.State()), Live(archiveIndex.State()), anchor,
              totalEvents, totalTurns, gcRuns, tokensSaved, branchesCompressed)
    }

    ghost function Configuration(): Config
      reads this, tree, activeIndex, archiveIndex, store
    {
      Config(State(), store.records)
    }

    /** The vectors of the two indices. */
    ghost function Vectors(): (Vectors, Vectors)
      reads activeIndex, archiveIndex
    {
      (Live(activeIndex.State()), Live(archiveIndex.State()))
    }

    ghost predicate Valid(env: Env)
      reads activeIndex, archiveIndex
    {
      && activeIndex != archiveIndex && activeIndex.dim == env.dim && archiveIndex.dim == env.dim
      && activeIndex.Valid() && archiveIndex.Valid()
    }

    /** Creating a session: from the latest snapshot if there is one, with both indices primed from
        the durable records. */
    constructor (env: Env, session: string, store: NodeStore, defaultBudget: int)
      ensures Valid(env) && fresh(tree) && fresh(activeIndex) && fresh(archiveIndex) && this.store == store
      ensures State() == Session(tree.State(), Rebuilt(env.dim, LoadActive(store.records)),
                                 Rebuilt(env.dim, LoadArchived(store.records)), [], 0, 0, 0, 0, 0)
      ensures store.snapshot == [] ==> tree.State() == NewTreeState(session)
      ensures store.snapshot != [] ==> tree.State() == RestoredFrom(session, store.snapshot)
      ensures tokenBudget == defaultBudget
    {
      var a := PrimedIndex(env.dim, LoadActive(store.records));
      var z := PrimedIndex(env.dim, LoadArchived(store.records));
      var t := OpenTree(session, store.snapshot);
      tree, activeIndex, archiveIndex, this.store := t, a, z, store;
      anchor, tokenBudget := [], defaultBudget;
      totalEvents, totalTurns, gcRuns, tokensSaved, branchesCompressed := 0, 0, 0, 0, 0;
    }

    /** The budget to compile and collect with; a positive request replaces the session's own. */
    method EffectiveBudget(request: int, defaultBudget: int) returns (budget: int)
      modifies this`tokenBudget
      ensures tokenBudget == if request > 0 then request else old(tokenBudget)
      ensures budget == if tokenBudget > 0 then tokenBudget else defaultBudget
    {
      if request > 0 {
        tokenBudget := request;
        return request;
      }
      budget := if tokenBudget > 0 then tokenBudget else defaultBudget;
    }

    /** The rest of step 3: the vector goes into the active index, and the anchor follows user prompts. */
    method IndexVector(env: Env, id: NodeID, prompt: bool, vec: Option<Vec>)
      requires Valid(env)
      modifies this`anchor, activeIndex
      ensures Valid(env)
      ensures var s := old(State()); State() == s.(
        active := if vec.Some? && Insertable(env.dim, id, vec.value) then s.active[id := vec.value] else s.active,
        anchor := if vec.Some? && prompt then vec.value else s.anchor)
      ensures tokenBudget == old(tokenBudget)
    {
      if vec.Some? {
        Remember(activeIndex, id, vec.value);
        if prompt {
          anchor := vec.value;
        }
      }
    }

    /** Steps 2 to 4: the node goes into the tree, its vector into the active index, and its record
        into the store. */
    method Record(env: Env, ev: Event, vec: Option<Vec>) returns (ghost i: Input)
      requires Valid(env) && Grown(tree.State())
      modifies this`anchor, tree`nodes, tree`turnCount, activeIndex, store`records
      ensures activeIndex.Valid() && i.ev == ev && i.vec == vec
      ensures IsBestParent(Next(old(tree.State())), EventNode(env, old(State()), i).kind, i.parent)
      ensures State() == old(State()).(tree := WithNode(env, old(State()), i),
                                       active := WithVector(env, old(State()), i),
                                       anchor := NewAnchor(old(State()), i))
      ensures store.records == Stored(env, old(Configuration()), i) && tokenBudget == old(tokenBudget)
    {
      ghost var before := Configuration();
      var id;
      id, i := AddEventNode(env, tree, before.s, ev, vec);
      ghost var now := State();
      assert now == before.s.(tree := WithNode(env, before.s, i));
      IndexVector(env, id, ev.kind == EventUserPrompt, vec);
      store.records := store.records[id := tree.nodes[id]];
      RecordedIs(env, before, i, State(), store.records);
    }

    method EstimateTokens(active: seq<NodeID>) returns (total: int)
      requires Enumerates(active, ActiveIds(tree.nodes))
      ensures total == ActiveTokens(tree.nodes)
    {
      total := 0;
      ghost var seen: set<NodeID> := {};
      TokensNone(tree.nodes, {});
      for i := 0 to |active|
        invariant seen == Elems(active[..i]) && total == TokensOn(tree.nodes, seen)
      {
        assert active[i] in Elems(active);
        ElemsStep(active, i);
        TokensInsert(tree.nodes, seen, active[i]);
        total := total + tree.nodes[active[i]].tokens;
        seen := seen + {active[i]};
      }
      assert active[..|active|] == active;
    }

    /** One node that left the active set. */
    method MoveVector(env: Env, id: NodeID)
      requires Valid(env)
      modifies activeIndex, archiveIndex
      ensures Valid(env)
      ensures Vectors() == (old(Vectors()).0 - {id}, WithMoved(env.dim, old(Vectors()).1, tree.nodes, id))
    {
      if id in tree.nodes && |tree.nodes[id].embedding| > 0 {
        Remember(archiveIndex, id, tree.nodes[id].embedding);
      }
      Forget(activeIndex, id);
    }

    /** `reconcileSemanticIndices`: vectors of nodes that left the active set move to the archive index. */
    method ReconcileIndices(env: Env, preIDs: set<NodeID>)
      requires Valid(env)
      modifies activeIndex, archiveIndex
      ensures Valid(env)
      ensures Vectors() == Moved(env.dim, old(Vectors()), tree.nodes, preIDs - ActiveIds(tree.nodes))
    {
      var active := tree.GetActiveNodes();
      ghost var before, post := Vectors(), Elems(active);
      var rest := preIDs;
      MoveNothing(env.dim, before, tree.nodes, preIDs, post);
      while rest != {}
        invariant Valid(env) && rest <= preIDs
        invariant Vectors() == Moved(env.dim, before, tree.nodes, Gone(preIDs, rest, post))
        decreases rest
      {
        var id :| id in rest;
        GoneStep(preIDs, rest, post, id);
        MoveStep(env.dim, before, tree.nodes, Gone(preIDs, rest, post), id);
        rest := rest - {id};
        if id in active {
          assert id in post;
          continue;
        }
        MoveVector(env, id);
      }
      assert Gone(preIDs, rest, post) == preIDs - post;
    }

    /** Steps 5 and 6: fresh scores for the active nodes, and the counters. */
    method Rescore(env: Env, prompt: bool) returns (active: seq<NodeID>)
      modifies tree`nodes, this`totalEvents, this`totalTurns
      ensures Enumerates(active, ActiveIds(tree.nodes))
      ensures State() == WithScores(env.gc.scorer, old(State()), prompt) && tokenBudget == old(tokenBudget)
    {
      active := ScoreActive(env.gc.scorer, tree, anchor);
      totalEvents := totalEvents + 1;
      if prompt {
        totalTurns := totalTurns + 1;
      }
    }

    /** The metrics, the indices and the records after garbage collection. */
    method Settle(env: Env, preIDs: set<NodeID>, out: Outcome)
      requires Valid(env) && tree.nodes == out.nodes
      modifies activeIndex, archiveIndex, store`records, this`gcRuns, this`tokensSaved, this`branchesCompressed
      ensures Valid(env)
      ensures Vectors() == Moved(env.dim, old(Vectors()), out.nodes, preIDs - ActiveIds(out.nodes))
      ensures var s := old(State()); State() == s.(active := Vectors().0, archive := Vectors().1,
        gcRuns := s.gcRuns + 1, saved := s.saved + out.freed, branches := s.branches + |out.records|)
      ensures store.records ==
        if |out.swept| > 0 || |out.records| > 0 then old(store.records) + out.nodes else old(store.records)
    {
      gcRuns := gcRuns + 1;
      tokensSaved := tokensSaved + out.freed;
      branchesCompressed := branchesCompressed + |out.records|;
      ReconcileIndices(env, preIDs);
      if |out.swept| > 0 || |out.records| > 0 {
        store.records := store.records + tree.nodes;
      }
    }

    /** `before` is the session as it was when the collection started. */
    method SettleAfter(env: Env, preIDs: set<NodeID>, out: Outcome, ghost before: Config)
      requires Valid(env) && preIDs == ActiveIds(before.s.tree.nodes)
      requires State() == WithNodes(before.s, out.nodes) && store.records == before.db
      modifies activeIndex, archiveIndex, store`records, this`gcRuns, this`tokensSaved, this`branchesCompressed
      ensures Valid(env) && Configuration() == Collected(env, before, out)
    {
      ghost var vectors := Vectors();
      Settle(env, preIDs, out);
      assert Vectors() == Moved(env.dim, vectors, out.nodes, preIDs - ActiveIds(out.nodes));
      assert (State().active, State().archive) == Vectors();
      CollectedIs(env, before, out, Configuration());
    }

    /** Garbage collection and what follows it. */
    method CollectAndReconcile(env: Env, preIDs: set<NodeID>) returns (out: Outcome, ghost r: Run)
      requires Valid(env) && preIDs == ActiveIds(tree.nodes)
      modifies tree`nodes, activeIndex, archiveIndex, store`records
      modifies this`gcRuns, this`tokensSaved, this`branchesCompressed
      ensures Valid(env) && RunsOn(env, old(State()), r) && out == Result(r)
      ensures Configuration() == Collected(env, old(Configuration()), out)
    {
      out, r := Collect(env.gc, tree, anchor);
      SettleAfter(env, preIDs, out, old(Configuration()));
    }

    /** Steps 1 to 6: everything before the trigger is looked at. */
    method Prepare(env: Env, ev: Event, vec: Option<Vec>) returns (active: seq<NodeID>, ghost i: Input)
      requires Valid(env) && Grown(tree.State())
      modifies this`anchor, this`totalEvents, this`totalTurns, tree, activeIndex, store`records
      ensures Valid(env) && i.ev == ev && i.vec == vec
      ensures IsBestParent(Next(old(tree.State())), EventNode(env, old(State()), i).kind, i.parent)
      ensures Enumerates(active, ActiveIds(tree.nodes))
      ensures Configuration() == Config(Counted(env, old(State()), i), Stored(env, old(Configuration()), i))
      ensures tokenBudget == old(tokenBudget)
    {
      ghost var before := Configuration();
      i := Record(env, ev, vec);
      ghost var now := State();
      assert now == before.s.(tree := WithNode(env, before.s, i), active := WithVector(env, before.s, i),
                              anchor := NewAnchor(before.s, i));
      active := Rescore(env, ev.kind == EventUserPrompt);
      CountedIs(env, before.s, i, now, State());
    }

    /** Step 7: garbage collection if a trigger fires. */
    method CollectIfDue(env: Env, active: seq<NodeID>)
      returns (reason: TriggerReason, ghost stats: TreeStats, ghost r: Run)
      requires Valid(env) && WellFormed(tree.State()) && Enumerates(active, ActiveIds(tree.nodes))
      modifies tree`nodes, activeIndex, archiveIndex, store`records
      modifies this`gcRuns, this`tokensSaved, this`branchesCompressed
      ensures Valid(env) && tokenBudget == old(tokenBudget) && AreStats(old(tree.State()), stats)
      ensures reason == Trigger(env.gc.policy, old(tree.nodes), stats, ActiveTokens(old(tree.nodes)), tokenBudget)
      ensures reason == NoReason ==> Configuration() == old(Configuration())
      ensures reason != NoReason ==>
                RunsOn(env, old(State()), r) && Configuration() == Collected(env, old(Configuration()), Result(r))
    {
      var estimated := EstimateTokens(active);
      stats := SomeStats(tree.State());
      reason := ShouldRun(env.gc.policy, tree, estimated, tokenBudget);
      r := Run(env.gc, tree.State(), anchor, [], []);
      if reason != NoReason {
        var out;
        out, r := CollectAndReconcile(env, set id | id in active);
      }
    }

    /** The end of `processEvent`; `before` is the session as it was when the event arrived. */
    method CollectAfter(env: Env, active: seq<NodeID>, ghost before: Config, ghost h: Input) returns (ghost i: Input)
      requires Valid(env) && Grown(tree.State()) && Enumerates(active, ActiveIds(tree.nodes))
      requires IsBestParent(Next(before.s.tree), EventNode(env, before.s, h).kind, h.parent)
      requires Configuration() == Config(Counted(env, before.s, h), Stored(env, before, h))
      modifies tree`nodes, activeIndex, archiveIndex, store`records
      modifies this`gcRuns, this`tokensSaved, this`branchesCompressed
      ensures Valid(env) && i.ev == h.ev && i.vec == h.vec && i.budget == tokenBudget == old(tokenBudget)
      ensures Allowed(env, before.s, i) && Configuration() == Process(env, before, i)
    {
      ghost var between := Configuration();
      var reason, stats, r := CollectIfDue(env, active);
      i := h.(budget := tokenBudget, stats := stats, order := r.order, ps := r.ps);
      Assembled(env, before, between, h, i, reason, r, Configuration());
    }

    /** `processEvent`. The ghost result records what the environment answered: the winning parent,
        the statistics and the iteration orders. */
    method ProcessEvent(env: Env, ev: Event, vec: Option<Vec>) returns (sequence: nat, ghost i: Input)
      requires Valid(env) && Grown(tree.State())
      modifies this, tree, activeIndex, archiveIndex, store`records, store`events
      ensures Valid(env) && i.ev == ev && i.vec == vec && i.budget == old(tokenBudget)
      ensures Allowed(env, old(State()), i)
      ensures Configuration() == Process(env, old(Configuration()), i)
      ensures sequence == old(tree.turnCount) + 1 && tokenBudget == old(tokenBudget)
      ensures store.events == old(store.events) + [ev]
    {
      store.events := store.events + [ev];
      ghost var before := Configuration();
      var active, h := Prepare(env, ev, vec);
      sequence := tree.turnCount;
      CountedIsGrown(env, before.s, h);
      i := CollectAfter(env, active, before, h);
    }

    /** `snapshotSession`: every node goes into a new snapshot and into its own record. */
    method SnapshotSession()
      requires forall id :: id in tree.nodes ==> tree.nodes[id].id == id
      modifies store`snapshot, store`records
      ensures DistinctIds(store.snapshot) && ById(store.snapshot) == tree.nodes
      ensures Configuration() == Snapshot(old(Configuration()))
    {
      var all: seq<Node> := [];
      var rest := tree.nodes.Keys;
      while rest != {}
        invariant rest <= tree.nodes.Keys && DistinctIds(all) && ById(all) == tree.nodes - rest
        invariant Configuration() == old(Configuration())
        decreases rest
      {
        var id :| id in rest;
        rest := rest - {id};
        ByIdSnoc(all, tree.nodes[id]);
        all := all + [tree.nodes[id]];
      }
      store.snapshot := all;
      store.records := store.records + tree.nodes;
    }
  }
}
