/** Whole runs of a session: any number of events, with a snapshot and a cold start in between. */
module SessionRuns {
  import opened Domain
  import opened Text
  import opened Facts
  import opened VectorIndex
  import opened StateTree
  import opened GarbageCollector
  import opened RunLaws
  import opened CollectorAtWork
  import opened GrownTrees
  import opened Worker

  ghost predicate StepAt(env: Env, cs: seq<Config>, ins: seq<Input>, k: nat)
    requires |cs| == |ins| + 1 && k < |ins|
  {
    Allowed(env, cs[k].s, ins[k]) && cs[k + 1] == Process(env, cs[k], ins[k])
  }

  /** `cs` are the configurations before, between and after the inputs `ins`. */
  ghost predicate IsTrace(env: Env, cs: seq<Config>, ins: seq<Input>) {
    |cs| == |ins| + 1 && forall k :: 0 <= k < |ins| ==> StepAt(env, cs, ins, k)
  }

  function NewSession(session: string): Config {
    Config(Session(NewTreeState(session), map[], map[], [], 0, 0, 0, 0, 0), map[])
  }

  // ---------------------------------------------------------------- snapshot and cold start

  /** The embeddings a cold start loads for the active index: of every record not archived. */
  function LoadActive(db: Nodes): Vectors {
    map id | id in db && |db[id].embedding| > 0 && db[id].status != Archived :: db[id].embedding
  }

  /** And for the archive index: of the archived records. */
  function LoadArchived(db: Nodes): Vectors {
    map id | id in db && |db[id].embedding| > 0 && db[id].status == Archived :: db[id].embedding
  }

  /** What `RebuildFromVectors` keeps. */
  function Rebuilt(dim: int, items: Vectors): Vectors {
    map id | id in items && Insertable(dim, id, items[id]) :: items[id]
  }

  /** The records after a snapshot: every node is written. */
  function Snapshot(c: Config): Config { c.(db := c.db + c.s.tree.nodes) }

  /** A session created from the snapshot and the records of another one. */
  ghost predicate IsColdStart(env: Env, before: Config, c: Config) {
    && IsRestored(c.s.tree, before.s.tree.session, before.s.tree.nodes)
    && c.db == before.db
    && c.s == Session(c.s.tree, Rebuilt(env.dim, LoadActive(c.db)), Rebuilt(env.dim, LoadArchived(c.db)),
                      [], 0, 0, 0, 0, 0)
  }

  /** Without the records of other nodes, rebuilding gives back the vectors of one status. */
  lemma RebuildMatches(dim: int, nodes: Nodes, db: Nodes)
    requires RecordsMatch(nodes, db)
    requires forall id :: id in nodes ==> nodes[id].status == Active || nodes[id].status == Archived
    requires forall id :: id in nodes && id !in db ==> nodes[id].embedding == []
    ensures Rebuilt(dim, LoadActive(db)) == VectorsWith(dim, nodes, Active)
    ensures Rebuilt(dim, LoadArchived(db)) == VectorsWith(dim, nodes, Archived)
  {
    ActiveRebuilds(dim, nodes, db);
    ArchivedRebuilds(dim, nodes, db);
  }

  lemma ActiveRebuilds(dim: int, nodes: Nodes, db: Nodes)
    requires RecordsMatch(nodes, db)
    requires forall id :: id in nodes ==> nodes[id].status == Active || nodes[id].status == Archived
    requires forall id :: id in nodes && id !in db ==> nodes[id].embedding == []
    ensures Rebuilt(dim, LoadActive(db)) == VectorsWith(dim, nodes, Active)
  {
  }

  lemma ArchivedRebuilds(dim: int, nodes: Nodes, db: Nodes)
    requires RecordsMatch(nodes, db)
    requires forall id :: id in nodes && id !in db ==> nodes[id].embedding == []
    ensures Rebuilt(dim, LoadArchived(db)) == VectorsWith(dim, nodes, Archived)
  {
  }

  /** At any time between two events, rebuilding both indices from the durable records gives what
      the session holds in memory. */
  lemma RecordsRebuildIndices(env: Env, c: Config)
    requires Inv(env, c)
    ensures Rebuilt(env.dim, LoadActive(c.db)) == c.s.active
    ensures Rebuilt(env.dim, LoadArchived(c.db)) == c.s.archive
  {
    var nodes := c.s.tree.nodes;
    forall id | id in nodes
      ensures id in c.db || nodes[id].embedding == []
      ensures nodes[id].status == Active || nodes[id].status == Archived
    {
      assert GrownNode(c.s.tree, nodes[id]) && GoodNode(nodes, c.s.tree.turns, id);
    }
    RebuildMatches(env.dim, nodes, c.db);
  }

  /** A snapshot and a cold start from it bring back the nodes and both indices, and the invariant. */
  lemma ColdStartResumes(env: Env, before: Config, c: Config)
    requires Inv(env, before) && IsColdStart(env, Snapshot(before), c)
    ensures Inv(env, c)
    ensures c.s.tree.nodes == before.s.tree.nodes && c.s.active == before.s.active && c.s.archive == before.s.archive
  {
    RestoredIsGrown(c.s.tree, before.s.tree);
    assert Inv(env, Snapshot(before));
    RecordsRebuildIndices(env, Snapshot(before));
  }

  lemma NewSessionHasInv(env: Env, session: string)
    ensures Inv(env, NewSession(session))
  {
    NewTreeIsGrown(session);
  }

  // ---------------------------------------------------------------- every state of every run

  lemma StepKeepsInv(env: Env, cs: seq<Config>, ins: seq<Input>, k: nat)
    requires IsTrace(env, cs, ins) && k < |ins| && Inv(env, cs[k])
    ensures Inv(env, cs[k + 1])
  {
    assert StepAt(env, cs, ins, k);
    ProcessKeepsInv(env, cs[k], ins[k]);
  }

  /** The invariant holds in every state of every run. */
  lemma {:induction false} InvAlways(env: Env, cs: seq<Config>, ins: seq<Input>, k: nat)
    requires IsTrace(env, cs, ins) && Inv(env, cs[0]) && k < |cs|
    ensures Inv(env, cs[k])
  {
    if k > 0 {
      InvAlways(env, cs, ins, k - 1);
      StepKeepsInv(env, cs, ins, k - 1);
    }
  }

  /** What one event does to the nodes that were there before it. */
  lemma ProcessEvolves(env: Env, c: Config, i: Input, id: NodeID)
    requires Inv(env, c) && Allowed(env, c.s, i) && id in c.s.tree.nodes
    ensures var n, c' := c.s.tree.nodes[id], Process(env, c, i);
      id in c'.s.tree.nodes && Evolved(n, c'.s.tree.nodes[id])
      && (c'.s.tree.nodes[id].status == n.status || c'.s.tree.nodes[id].status == Archived)
      && (Deferred(n) ==> c'.s.tree.nodes[id].status == n.status)
  {
    NewIDIsNew(c.s);
    OldNodesBeforeGC(env, c.s, i, id);
    if Reason(env, c.s, i) != NoReason {
      ScoredIsGrown(env, c.s, i);
      var r := GCRun(env, c.s, i);
      GrownRunIsRun(r);
      OldNodesEvolve(r, id);
      if Deferred(c.s.tree.nodes[id]) {
        RunKeepsPinned(r, id);
      }
    }
  }

  /** `n` is what has become of node `m`: archived or not, rescored, with other child links. */
  predicate Later(m: Node, n: Node) {
    && Evolved(m, n) && (n.status == m.status || n.status == Archived)
    && (Deferred(m) ==> n.status == m.status)
  }

  /** Node `id`, if it is in `a`, is in `b` too, and only older. */
  ghost predicate Ages(a: Nodes, b: Nodes, id: NodeID) {
    id in a ==> id in b && Later(a[id], b[id])
  }

  lemma AgesTransitive(a: Nodes, b: Nodes, c: Nodes, id: NodeID)
    ensures Ages(a, a, id) && (Ages(a, b, id) && Ages(b, c, id) ==> Ages(a, c, id))
  {
  }

  lemma ProcessAges(env: Env, c: Config, i: Input, id: NodeID)
    requires Inv(env, c) && Allowed(env, c.s, i)
    ensures Ages(c.s.tree.nodes, Process(env, c, i).s.tree.nodes, id)
  {
    if id in c.s.tree.nodes {
      ProcessEvolves(env, c, i, id);
    }
  }

  lemma StepOnlyAges(env: Env, cs: seq<Config>, ins: seq<Input>, k: nat, id: NodeID)
    requires IsTrace(env, cs, ins) && k < |ins| && Inv(env, cs[0])
    ensures Ages(cs[k].s.tree.nodes, cs[k + 1].s.tree.nodes, id)
  {
    assert StepAt(env, cs, ins, k);
    InvAlways(env, cs, ins, k);
    ProcessAges(env, cs[k], ins[k], id);
  }

  /** A relation between nodes that holds along every step, and is reflexive and transitive. */
  lemma {:induction false} AgesAlong(trees: seq<Nodes>, id: NodeID, j: nat, k: nat)
    requires j <= k < |trees|
    requires forall i :: 0 <= i < |trees| - 1 ==> Ages(trees[i], trees[i + 1], id)
    ensures Ages(trees[j], trees[k], id)
  {
    AgesTransitive(trees[j], trees[j], trees[j], id);
    if j < k {
      AgesAlong(trees, id, j, k - 1);
      assert Ages(trees[k - 1], trees[k - 1 + 1], id);
      AgesTransitive(trees[j], trees[k - 1], trees[k], id);
    }
  }

  /** Nodes are never removed, archived nodes stay archived, and apart from status, child links and
      scores a node never changes. */
  lemma NodesOnlyAge(env: Env, cs: seq<Config>, ins: seq<Input>, j: nat, k: nat, id: NodeID)
    requires IsTrace(env, cs, ins) && Inv(env, cs[0]) && j <= k < |cs|
    ensures Ages(cs[j].s.tree.nodes, cs[k].s.tree.nodes, id)
  {
    var trees := seq(|cs|, i requires 0 <= i < |cs| => cs[i].s.tree.nodes);
    forall i | 0 <= i < |trees| - 1 ensures Ages(trees[i], trees[i + 1], id) {
      StepOnlyAges(env, cs, ins, i, id);
    }
    AgesAlong(trees, id, j, k);
  }

  /** Pinning: a node that holds a fact or a decision in some state is active in every later one. */
  lemma PinnedForever(env: Env, cs: seq<Config>, ins: seq<Input>, j: nat, k: nat, id: NodeID)
    requires IsTrace(env, cs, ins) && Inv(env, cs[0]) && j <= k < |cs|
    requires id in ActiveIds(cs[j].s.tree.nodes) && Deferred(cs[j].s.tree.nodes[id])
    ensures id in ActiveIds(cs[k].s.tree.nodes) && Deferred(cs[k].s.tree.nodes[id])
  {
    NodesOnlyAge(env, cs, ins, j, k, id);
  }

  /** One event adds one node, and none ever goes. */
  lemma ProcessedNodes(env: Env, c: Config, i: Input)
    requires Inv(env, c) && Allowed(env, c.s, i)
    ensures Process(env, c, i).s.tree.nodes.Keys == c.s.tree.nodes.Keys + {NewID(c.s)}
  {
    NewIDIsNew(c.s);
    NewNodeBeforeGC(env, c.s, i);
    if Reason(env, c.s, i) != NoReason {
      ScoredIsGrown(env, c.s, i);
      var r := GCRun(env, c.s, i);
      GrownTreesNeverCompact(r);
      Marking(r);
    }
  }

  lemma OneNewNode(env: Env, c: Config, i: Input, id: NodeID)
    requires Inv(env, c) && Allowed(env, c.s, i)
    requires id in Process(env, c, i).s.tree.nodes && id !in c.s.tree.nodes
    ensures id == NewID(c.s)
  {
    ProcessedNodes(env, c, i);
    assert id in Process(env, c, i).s.tree.nodes.Keys;
  }

  /** A node after an event is the event's own or was there before. */
  lemma ComesFrom(env: Env, c: Config, i: Input, id: NodeID, n: Node) returns (m: Node)
    requires Inv(env, c) && Allowed(env, c.s, i)
    requires id in Process(env, c, i).s.tree.nodes && n == Process(env, c, i).s.tree.nodes[id]
    ensures Later(m, n)
    ensures m == EventNode(env, c.s, i) || (id in c.s.tree.nodes && m == c.s.tree.nodes[id])
  {
    if id in c.s.tree.nodes {
      m := c.s.tree.nodes[id];
      ProcessAges(env, c, i, id);
    } else {
      OneNewNode(env, c, i, id);
      m := EventNode(env, c.s, i);
      EventNodeIsStored(env, c, i);
    }
  }

  /** No node with facts or decisions has left the active set. */
  predicate PinnedAreActive(nodes: Nodes) {
    forall id :: id in nodes && Deferred(nodes[id]) ==> nodes[id].status == Active
  }

  lemma ProcessKeepsPinnedActive(env: Env, c: Config, i: Input)
    requires Inv(env, c) && Allowed(env, c.s, i) && PinnedAreActive(c.s.tree.nodes)
    ensures PinnedAreActive(Process(env, c, i).s.tree.nodes)
  {
    var nodes' := Process(env, c, i).s.tree.nodes;
    forall id | id in nodes' && Deferred(nodes'[id]) ensures nodes'[id].status == Active {
      PinnedAfterEvent(env, c, i, id);
    }
  }

  lemma PinnedAfterEvent(env: Env, c: Config, i: Input, id: NodeID)
    requires Inv(env, c) && Allowed(env, c.s, i) && PinnedAreActive(c.s.tree.nodes)
    requires id in Process(env, c, i).s.tree.nodes && Deferred(Process(env, c, i).s.tree.nodes[id])
    ensures Process(env, c, i).s.tree.nodes[id].status == Active
  {
    var m := ComesFrom(env, c, i, id, Process(env, c, i).s.tree.nodes[id]);
    assert Deferred(m) ==> m.status == Active;
  }

  lemma StepKeepsPinnedActive(env: Env, cs: seq<Config>, ins: seq<Input>, k: nat)
    requires IsTrace(env, cs, ins) && Inv(env, cs[0]) && k < |ins| && PinnedAreActive(cs[k].s.tree.nodes)
    ensures PinnedAreActive(cs[k + 1].s.tree.nodes)
  {
    InvAlways(env, cs, ins, k);
    assert StepAt(env, cs, ins, k);
    ProcessKeepsPinnedActive(env, cs[k], ins[k]);
  }

  /** If that holds at the start, as in a fresh session, it holds in every state: every node that holds
      a fact or a decision is active. */
  lemma {:induction false} PinnedAlwaysActive(env: Env, cs: seq<Config>, ins: seq<Input>, k: nat)
    requires IsTrace(env, cs, ins) && Inv(env, cs[0]) && PinnedAreActive(cs[0].s.tree.nodes) && k < |cs|
    ensures PinnedAreActive(cs[k].s.tree.nodes)
  {
    if k > 0 {
      PinnedAlwaysActive(env, cs, ins, k - 1);
      StepKeepsPinnedActive(env, cs, ins, k - 1);
    }
  }

  lemma PinnedInFreshRuns(env: Env, session: string, cs: seq<Config>, ins: seq<Input>, k: nat)
    requires IsTrace(env, cs, ins) && cs[0] == NewSession(session) && k < |cs|
    ensures PinnedAreActive(cs[k].s.tree.nodes)
  {
    NewSessionHasInv(env, session);
    PinnedAlwaysActive(env, cs, ins, k);
  }

  /** The node of an event is in the tree, with everything the event put on it. */
  lemma EventNodeIsStored(env: Env, c: Config, i: Input)
    requires Inv(env, c) && Allowed(env, c.s, i)
    ensures NewID(c.s) in Process(env, c, i).s.tree.nodes
    ensures Later(EventNode(env, c.s, i), Process(env, c, i).s.tree.nodes[NewID(c.s)])
  {
    NewIDIsNew(c.s);
    NewNodeBeforeGC(env, c.s, i);
    if Reason(env, c.s, i) != NoReason {
      ScoredIsGrown(env, c.s, i);
      var r := GCRun(env, c.s, i);
      GrownRunIsRun(r);
      OldNodesEvolve(r, NewID(c.s));
      if Deferred(EventNode(env, c.s, i)) {
        RunKeepsPinned(r, NewID(c.s));
      }
    }
  }

  /** Every assistant reply that is not blank stays active for the rest of the run. */
  lemma RepliesStayActive(env: Env, cs: seq<Config>, ins: seq<Input>, j: nat, k: nat)
    requires IsTrace(env, cs, ins) && Inv(env, cs[0]) && j < k < |cs|
    requires ins[j].ev.kind.EventLLMResponse? && TrimSpace(ins[j].ev.payload) != ""
    ensures NewID(cs[j].s) in ActiveIds(cs[k].s.tree.nodes)
  {
    RepliesDecide(env.texts, ins[j].ev);
    InvAlways(env, cs, ins, j);
    assert StepAt(env, cs, ins, j);
    EventNodeIsStored(env, cs[j], ins[j]);
    PinnedForever(env, cs, ins, j + 1, k, NewID(cs[j].s));
  }

  // ---------------------------------------------------------------- the token ledger

  ghost function Balance(s: Session): int { ActiveTokens(s.tree.nodes) + s.saved }

  /** One more active node. */
  lemma OneMoreActive(nodes: Nodes, nodes': Nodes, id: NodeID)
    requires id !in nodes && nodes'.Keys == nodes.Keys + {id} && nodes'[id].status == Active
    requires forall x :: x in nodes ==> nodes'[x].tokens == nodes[x].tokens && nodes'[x].status == nodes[x].status
    ensures ActiveTokens(nodes') == ActiveTokens(nodes) + nodes'[id].tokens
  {
    assert ActiveIds(nodes') == ActiveIds(nodes) + {id};
    TokensInsert(nodes', ActiveIds(nodes), id);
    TokensAgree(nodes, nodes', ActiveIds(nodes));
  }

  lemma AddedTokens(env: Env, s: Session, i: Input)
    requires Grown(s.tree) && Allowed(env, s, i)
    ensures ActiveTokens(Scored(env, s, i).nodes) == ActiveTokens(s.tree.nodes) + i.ev.tokens
  {
    NewIDIsNew(s);
    NewNodeBeforeGC(env, s, i);
    var nodes, nodes' := s.tree.nodes, Scored(env, s, i).nodes;
    forall x | x in nodes
      ensures x in nodes' && nodes'[x].tokens == nodes[x].tokens && nodes'[x].status == nodes[x].status
    {
      OldNodesBeforeGC(env, s, i, x);
    }
    OneMoreActive(nodes, nodes', NewID(s));
  }

  lemma RunBalances(r: Run)
    requires Grown(r.st) && AreOrders(r)
    ensures ActiveTokens(Result(r).nodes) + Result(r).freed == ActiveTokens(r.st.nodes) && Result(r).records == []
  {
    GrownRunBalances(r);
    GrownTreesNeverCompact(r);
  }

  lemma GCBalances(env: Env, c: Config, i: Input)
    requires Grown(Scored(env, c.s, i)) && AreOrders(GCRun(env, c.s, i))
    ensures Balance(AfterGC(env, c, i).s) == Balance(Counted(env, c.s, i))
    ensures AfterGC(env, c, i).s.branches == c.s.branches
  {
    var r := GCRun(env, c.s, i);
    RunBalances(r);
    var s' := AfterGC(env, c, i).s;
    assert s'.tree.nodes == Result(r).nodes;
    assert s'.saved == c.s.saved + Result(r).freed;
    assert s'.branches == c.s.branches + |Result(r).records|;
  }

  /** One event moves the balance by its own tokens. */
  lemma ProcessBalances(env: Env, c: Config, i: Input)
    requires Inv(env, c) && Allowed(env, c.s, i)
    ensures Balance(Process(env, c, i).s) == Balance(c.s) + i.ev.tokens
    ensures Process(env, c, i).s.branches == c.s.branches
  {
    AddedTokens(env, c.s, i);
    ScoredIsGrown(env, c.s, i);
    if Reason(env, c.s, i) != NoReason {
      GCBalances(env, c, i);
    }
  }

  lemma StepBalances(env: Env, cs: seq<Config>, ins: seq<Input>, k: nat)
    requires IsTrace(env, cs, ins) && k < |ins| && Inv(env, cs[k])
    ensures Balance(cs[k + 1].s) == Balance(cs[k].s) + ins[k].ev.tokens && cs[k + 1].s.branches == cs[k].s.branches
  {
    assert StepAt(env, cs, ins, k);
    ProcessBalances(env, cs[k], ins[k]);
  }

  function EventTokens(ins: seq<Input>): int {
    if ins == [] then 0 else EventTokens(ins[..|ins| - 1]) + ins[|ins| - 1].ev.tokens
  }

  ghost predicate BalancedAt(cs: seq<Config>, ins: seq<Input>, j: nat)
    requires |cs| == |ins| + 1 && j < |ins|
  {
    Balance(cs[j + 1].s) == Balance(cs[j].s) + ins[j].ev.tokens && cs[j + 1].s.branches == cs[j].s.branches
  }

  lemma {:induction false} AddsUp(cs: seq<Config>, ins: seq<Input>, k: nat)
    requires |cs| == |ins| + 1 && k < |cs| && forall j :: 0 <= j < |ins| ==> BalancedAt(cs, ins, j)
    ensures Balance(cs[k].s) == Balance(cs[0].s) + EventTokens(ins[..k]) && cs[k].s.branches == cs[0].s.branches
  {
    if k > 0 {
      AddsUp(cs, ins, k - 1);
      assert BalancedAt(cs, ins, k - 1);
      assert ins[..k][..k - 1] == ins[..k - 1];
    }
  }

  /** The ledger over whole runs: active tokens and saved tokens together are the starting balance
      plus the tokens of all events; and no branch is ever compressed. */
  lemma Ledger(env: Env, cs: seq<Config>, ins: seq<Input>, k: nat)
    requires IsTrace(env, cs, ins) && Inv(env, cs[0]) && k < |cs|
    ensures Balance(cs[k].s) == Balance(cs[0].s) + EventTokens(ins[..k])
    ensures cs[k].s.branches == cs[0].s.branches
  {
    forall j | 0 <= j < |ins| ensures BalancedAt(cs, ins, j) {
      InvAlways(env, cs, ins, j);
      StepBalances(env, cs, ins, j);
    }
    AddsUp(cs, ins, k);
  }

  /** From a fresh session: all tokens are either active or accounted as saved. */
  lemma FreshLedger(env: Env, session: string, cs: seq<Config>, ins: seq<Input>, k: nat)
    requires IsTrace(env, cs, ins) && cs[0] == NewSession(session) && k < |cs|
    ensures EventTokens(ins[..k]) == ActiveTokens(cs[k].s.tree.nodes) + cs[k].s.saved
  {
    NewSessionHasInv(env, session);
    Ledger(env, cs, ins, k);
    var nodes := NewTreeState(session).nodes;
    assert ActiveIds(nodes) == {} + {RootID(session)};
    TokensNone(nodes, {});
    TokensInsert(nodes, {}, RootID(session));
  }
}
