/** The state tree of one session: what its operations do to the nodes, and the well-formedness that
    all of them keep. `TreeState` is the value of a tree; class `Tree` is the mutable tree. */
module StateTree {
  import opened Collections
  import opened Domain
  import opened Text
  import opened Facts

  datatype TreeState = TreeState(session: string, root: NodeID, nodes: Nodes, turns: nat)

  // ---------------------------------------------------------------- building a node

  const RULE_WORDS := ["must", "always", "never", "require", "constraint"]

  predicate ContainsAny(s: string, words: seq<string>) {
    exists i :: 0 <= i < |words| && Contains(s, words[i])
  }

  function Classify(lower: Lower, ev: Event): NodeType {
    match ev.kind
    case EventUserPrompt => if ContainsAny(LowerAll(lower, ev.payload), RULE_WORDS) then NodeConstraint else NodeGoal
    case EventToolCall => NodeAttempt
    case EventToolResult => NodeToolResult
    case EventLLMResponse => NodeDecision
    case EventError => NodeIssue
    case EventRetry => NodeIssue
    case _ => NodeBackground
  }

  function EventName(kind: EventType): string {
    match kind
    case EventUserPrompt => "user_prompt"
    case EventAgentPrompt => "agent_prompt"
    case EventLLMResponse => "llm_response"
    case EventToolCall => "tool_call"
    case EventToolResult => "tool_result"
    case EventError => "error"
    case EventRetry => "retry"
    case EventGCTrigger => "gc_trigger"
    case EventBranchComp => "branch_compression"
    case EventSnapshot => "state_snapshot"
    case EventSystem => "system"
    case EventOther(name) => name
  }

  function Truncate(s: string, max: nat): string {
    if |s| <= max then s else s[..max] + "..."
  }

  function BuildTitle(ev: Event): string {
    "[" + EventName(ev.kind) + "] " + Truncate(ev.payload, 80)
  }

  function NewNode(t: Texts, session: string, turn: nat, parent: NodeID, ev: Event): Node {
    var extracted := Extracted(t, ev);
    Node(EventNodeID(session, turn), parent, Classify(t.lower, ev), Active,
         BuildTitle(ev), Truncate(ev.payload, 500), extracted.0, extracted.1, [], [], [ev.id], [],
         ev.tokens, turn, ZERO_SCORES, [])
  }

  // ---------------------------------------------------------------- operations on values

  function NewRoot(session: string): Node {
    Node(RootID(session), NoID, NodeGoal, Active, "Session Root", "", [], [], [], [], [], [], 0, 0, ZERO_SCORES, [])
  }

  function NewTreeState(session: string): TreeState {
    TreeState(session, RootID(session), map[RootID(session) := NewRoot(session)], 0)
  }

  /** Goals and constraints hang off the root. Anything else hangs off an active node that no active
      node is newer than, or off the root when nothing is active. */
  predicate IsBestParent(st: TreeState, kind: NodeType, parent: NodeID) {
    if kind == NodeGoal || kind == NodeConstraint || ActiveIds(st.nodes) == {} then parent == st.root
    else IsNewest(st.nodes, ActiveIds(st.nodes), parent)
  }

  predicate IsNewest(nodes: Nodes, ids: set<NodeID>, best: NodeID)
    requires forall id :: id in ids ==> id in nodes
  {
    best in ids && forall other :: other in ids ==> nodes[other].turn <= nodes[best].turn
  }

  function Appended(nodes: Nodes, parent: NodeID, child: NodeID): Nodes {
    if parent in nodes then nodes[parent := nodes[parent].(children := nodes[parent].children + [child])] else nodes
  }

  /** Storing a node and linking it to its parent, as `AddNode` does. */
  function Added(st: TreeState, node: Node): TreeState {
    st.(nodes := Appended(st.nodes[node.id := node], node.parent, node.id))
  }

  function Archive(nodes: Nodes, ids: set<NodeID>): Nodes {
    map id | id in nodes :: if id in ids then nodes[id].(status := Archived) else nodes[id]
  }

  function Without(s: seq<NodeID>, ids: set<NodeID>): seq<NodeID> {
    if s == [] then []
    else
      var front := Without(s[..|s| - 1], ids);
      if s[|s| - 1] in ids then front else front + [s[|s| - 1]]
  }

  /** `ReplaceWithCompressed`: the listed nodes are archived, the branch node is stored, and it takes
      the listed nodes' place among the parent's children. */
  function Replaced(nodes: Nodes, parent: NodeID, ids: seq<NodeID>, branch: Node): Nodes {
    var stored := Archive(nodes, Elems(ids))[branch.id := branch];
    if parent in stored then
      stored[parent := stored[parent].(children := Without(stored[parent].children, Elems(ids)) + [branch.id])]
    else stored
  }

  predicate IsRootCandidate(n: Node) {
    n.parent == NoID || n.kind == NodeGoal
  }

  /** A tree rebuilt from a stored snapshot. Which of several candidates becomes the root depends on
      the order of the snapshot. */
  predicate IsRestored(st: TreeState, session: string, nodes: Nodes) {
    && st.session == session && st.nodes == nodes
    && (if exists id :: id in nodes && IsRootCandidate(nodes[id])
        then st.root in nodes && IsRootCandidate(nodes[st.root]) else st.root == NoID)
    && (forall id :: id in nodes ==> nodes[id].turn <= st.turns)
    && (st.turns == 0 || exists id :: id in nodes && nodes[id].turn == st.turns)
  }

  /** The nodes of a snapshot by id. */
  function ById(snapshot: seq<Node>): Nodes {
    if snapshot == [] then map[]
    else
      var last := snapshot[|snapshot| - 1];
      ById(snapshot[..|snapshot| - 1])[last.id := last]
  }

  predicate DistinctIds(snapshot: seq<Node>) {
    forall i, j :: 0 <= i < j < |snapshot| ==> snapshot[i].id != snapshot[j].id
  }

  lemma {:induction false} ByIdKeys(snapshot: seq<Node>, x: NodeID)
    ensures x in ById(snapshot) <==> exists i :: 0 <= i < |snapshot| && snapshot[i].id == x
  {
    if snapshot != [] {
      ByIdKeys(snapshot[..|snapshot| - 1], x);
    }
  }

  /** Reading one more node of the snapshot. */
  lemma RestoreStep(st: TreeState, nodes: Nodes, n: Node)
    requires IsRestored(st, st.session, nodes) && n.id !in nodes
    ensures IsRestored(st.(nodes := nodes[n.id := n],
                           root := if IsRootCandidate(n) then n.id else st.root,
                           turns := if n.turn > st.turns then n.turn else st.turns),
                       st.session, nodes[n.id := n])
  {
    var nodes' := nodes[n.id := n];
    var turns' := if n.turn > st.turns then n.turn else st.turns;
    forall id | id in nodes && IsRootCandidate(nodes[id]) ensures IsRootCandidate(nodes'[id]) {
    }
    if turns' == n.turn {
      assert nodes'[n.id].turn == turns';
    } else if st.turns != 0 {
      var w :| w in nodes && nodes[w].turn == st.turns;
      assert w in nodes' && nodes'[w].turn == turns';
    }
  }

  /** Reading a snapshot node by node: a later node with the same id replaces an earlier one, the last
      candidate becomes the root. */
  function RestoredFrom(session: string, snapshot: seq<Node>): TreeState {
    if snapshot == [] then TreeState(session, NoID, map[], 0)
    else
      var st, n := RestoredFrom(session, snapshot[..|snapshot| - 1]), snapshot[|snapshot| - 1];
      st.(nodes := st.nodes[n.id := n],
          root := if IsRootCandidate(n) then n.id else st.root,
          turns := if n.turn > st.turns then n.turn else st.turns)
  }

  /** The nodes of the snapshot by id; and if it names no id twice, as the program's snapshots do, a tree
      restored from them. */
  lemma {:induction false} RestoredFromIs(session: string, snapshot: seq<Node>)
    ensures var st := RestoredFrom(session, snapshot);
      st.session == session && st.nodes == ById(snapshot)
      && (DistinctIds(snapshot) ==> IsRestored(st, session, ById(snapshot)))
  {
    if snapshot != [] {
      var front, n := snapshot[..|snapshot| - 1], snapshot[|snapshot| - 1];
      RestoredFromIs(session, front);
      if DistinctIds(snapshot) {
        ByIdKeys(front, n.id);
        RestoreStep(RestoredFrom(session, front), ById(front), n);
      }
    }
  }

  // ---------------------------------------------------------------- well-formed trees

  /** A child link names an existing node that points back, and either the turn number rises along
      the link or the child is a compressed branch. */
  ghost predicate GoodLink(nodes: Nodes, p: NodeID, c: NodeID)
    requires p in nodes
  {
    c in nodes && nodes[c].parent == p
    && (nodes[p].turn < nodes[c].turn || nodes[c].kind == NodeCompressedBranch)
  }

  ghost predicate GoodNode(nodes: Nodes, turns: nat, id: NodeID)
    requires id in nodes
  {
    var n := nodes[id];
    && n.id == id && n.id != NoID && n.turn <= turns
    && (n.parent == NoID || (n.parent in nodes && nodes[n.parent].kind != NodeCompressedBranch))
    && (n.kind == NodeCompressedBranch ==> n.children == [] && n.status != Active && n.parent != NoID)
    && NoDup(n.children)
    && (forall c :: c in n.children ==> GoodLink(nodes, id, c))
  }

  ghost predicate WellFormed(st: TreeState) {
    && (forall id :: id in st.nodes ==> GoodNode(st.nodes, st.turns, id))
    && (st.root == NoID || (st.root in st.nodes && st.nodes[st.root].kind != NodeCompressedBranch))
  }

  /** `n` may have replaced `m`: nothing that links and turns depend on has changed. */
  predicate SameShape(m: Node, n: Node) {
    n.id == m.id && n.parent == m.parent && n.kind == m.kind && n.turn == m.turn
    && (n.status == Active ==> m.status == Active)
  }

  ghost predicate Extends(a: Nodes, b: Nodes) {
    forall id :: id in a ==> id in b && SameShape(a[id], b[id])
  }

  /** Whatever keeps the shape of the old nodes keeps those nodes good whose links did not change. */
  lemma GoodNodeStays(a: Nodes, b: Nodes, turns: nat, id: NodeID)
    requires id in a && GoodNode(a, turns, id) && Extends(a, b) && b[id].children == a[id].children
    ensures GoodNode(b, turns, id)
  {
    forall c | c in b[id].children ensures GoodLink(b, id, c) {
      assert GoodLink(a, id, c);
    }
  }

  /** One more child link. */
  lemma GoodNodeLinks(a: Nodes, b: Nodes, turns: nat, id: NodeID, kept: seq<NodeID>, c: NodeID)
    requires id in a && GoodNode(a, turns, id) && Extends(a, b) && a[id].kind != NodeCompressedBranch
    requires b[id].children == kept + [c] && NoDup(kept) && c !in kept
    requires forall x :: x in kept ==> x in a[id].children
    requires GoodLink(b, id, c)
    ensures GoodNode(b, turns, id)
  {
    EnumeratesSnoc(kept, c);
    forall x | x in b[id].children ensures GoodLink(b, id, x) {
      assert x == c || GoodLink(a, id, x);
    }
  }

  lemma StrangersAreNoChildren(st: TreeState, p: NodeID, x: NodeID)
    requires WellFormed(st) && p in st.nodes && x !in st.nodes
    ensures x !in st.nodes[p].children
  {
    assert x in st.nodes[p].children ==> GoodLink(st.nodes, p, x);
  }

  /** Every node is older than the turn being processed, and the id of that turn is free. */
  ghost predicate TurnIsNew(st: TreeState) {
    && (forall id :: id in st.nodes ==> st.nodes[id].turn < st.turns)
    && EventNodeID(st.session, st.turns) !in st.nodes
  }

  lemma NewTreeIsWellFormed(session: string)
    ensures WellFormed(NewTreeState(session))
  {
  }

  lemma RestoredIsWellFormed(st: TreeState, before: TreeState)
    requires WellFormed(before) && IsRestored(st, before.session, before.nodes)
    ensures WellFormed(st)
  {
  }

  /** The node of the current turn, without children. */
  predicate IsNewNode(st: TreeState, node: Node) {
    node.id == EventNodeID(st.session, st.turns) && node.turn == st.turns && node.status == Active
    && node.kind != NodeCompressedBranch && node.children == [] && node.dependencies == []
  }

  lemma NewNodeIsNew(t: Texts, st: TreeState, ev: Event, parent: NodeID)
    ensures IsNewNode(st, NewNode(t, st.session, st.turns, parent, ev))
  {
  }

  lemma AddedKeepsWellFormed(st: TreeState, node: Node)
    requires WellFormed(st) && TurnIsNew(st) && IsNewNode(st, node) && IsBestParent(st, node.kind, node.parent)
    ensures WellFormed(Added(st, node))
  {
    var nodes' := Added(st, node).nodes;
    assert node.parent == NoID || (node.parent in st.nodes && GoodNode(st.nodes, st.turns, node.parent));
    assert Extends(st.nodes, nodes');
    assert GoodNode(nodes', st.turns, node.id);
    forall id | id in st.nodes ensures GoodNode(nodes', st.turns, id) {
      assert GoodNode(st.nodes, st.turns, id);
      if id == node.parent {
        StrangersAreNoChildren(st, id, node.id);
        GoodNodeLinks(st.nodes, nodes', st.turns, id, st.nodes[id].children, node.id);
      } else {
        GoodNodeStays(st.nodes, nodes', st.turns, id);
      }
    }
  }

  lemma ArchiveKeepsWellFormed(st: TreeState, ids: set<NodeID>)
    requires WellFormed(st)
    ensures WellFormed(st.(nodes := Archive(st.nodes, ids)))
  {
    var nodes' := Archive(st.nodes, ids);
    forall id | id in nodes' ensures GoodNode(nodes', st.turns, id) {
      GoodNodeStays(st.nodes, nodes', st.turns, id);
    }
  }

  lemma {:induction false} WithoutMembers(s: seq<NodeID>, ids: set<NodeID>)
    ensures forall x :: x in Without(s, ids) <==> x in s && x !in ids
    ensures NoDup(s) ==> NoDup(Without(s, ids))
  {
    if s != [] {
      WithoutMembers(s[..|s| - 1], ids);
      assert s == s[..|s| - 1] + [s[|s| - 1]];
    }
  }

  /** What a compressor hands back: a branch node without links that is not active. */
  predicate IsBranchNode(c: Node) {
    c.kind == NodeCompressedBranch && c.status == Compressed && c.children == [] && c.turn == 0
    && c.dependencies == [] && c.embedding == [] && c.id != NoID
  }

  lemma ReplacedExtends(nodes: Nodes, parent: NodeID, ids: seq<NodeID>, branch: Node)
    requires parent in nodes && branch.id !in nodes
    ensures var nodes' := Replaced(nodes, parent, ids, branch);
      && nodes'.Keys == nodes.Keys + {branch.id} && nodes'[branch.id] == branch && Extends(nodes, nodes')
      && (forall id :: id in nodes && id != parent ==> nodes'[id].children == nodes[id].children)
      && nodes'[parent].children == Without(nodes[parent].children, Elems(ids)) + [branch.id]
  {
  }

  lemma ReplacedKeepsWellFormed(st: TreeState, parent: NodeID, ids: seq<NodeID>, branch: Node)
    requires WellFormed(st) && parent in st.nodes && st.nodes[parent].kind != NodeCompressedBranch
    requires IsBranchNode(branch) && branch.parent == parent && branch.id !in st.nodes
    ensures WellFormed(st.(nodes := Replaced(st.nodes, parent, ids, branch)))
  {
    ReplacedExtends(st.nodes, parent, ids, branch);
    WithoutMembers(st.nodes[parent].children, Elems(ids));
    LinkedKeepsWellFormed(st, parent, Without(st.nodes[parent].children, Elems(ids)), branch,
                          Replaced(st.nodes, parent, ids, branch));
  }

  /** A new branch node takes its place among the children of its parent that were kept. */
  lemma LinkedKeepsWellFormed(st: TreeState, parent: NodeID, kept: seq<NodeID>, branch: Node, nodes': Nodes)
    requires WellFormed(st) && parent in st.nodes && st.nodes[parent].kind != NodeCompressedBranch
    requires IsBranchNode(branch) && branch.parent == parent && branch.id !in st.nodes
    requires nodes'.Keys == st.nodes.Keys + {branch.id} && nodes'[branch.id] == branch && Extends(st.nodes, nodes')
    requires forall id :: id in st.nodes && id != parent ==> nodes'[id].children == st.nodes[id].children
    requires nodes'[parent].children == kept + [branch.id]
    requires NoDup(st.nodes[parent].children) ==> NoDup(kept)
    requires forall x :: x in kept ==> x in st.nodes[parent].children
    ensures WellFormed(st.(nodes := nodes'))
  {
    assert GoodNode(nodes', st.turns, branch.id);
    forall id | id in st.nodes ensures GoodNode(nodes', st.turns, id) {
      assert GoodNode(st.nodes, st.turns, id);
      if id == parent {
        StrangersAreNoChildren(st, id, branch.id);
        GoodNodeLinks(st.nodes, nodes', st.turns, id, kept, branch.id);
      } else {
        GoodNodeStays(st.nodes, nodes', st.turns, id);
      }
    }
  }

  // ---------------------------------------------------------------- depth

  /** Falls along every child link of a well-formed tree. */
  function Height(st: TreeState, id: NodeID): int {
    if id !in st.nodes || st.nodes[id].children == [] then 0 else 1 + st.turns - st.nodes[id].turn
  }

  lemma HeightFalls(st: TreeState, p: NodeID, c: NodeID)
    requires WellFormed(st) && p in st.nodes && c in st.nodes[p].children
    ensures 0 <= Height(st, c) < Height(st, p)
    ensures c in st.nodes && st.nodes[c].parent == p
  {
    assert GoodLink(st.nodes, p, c);
  }

  ghost function Depth(st: TreeState, id: NodeID, current: nat): nat
    requires WellFormed(st)
    decreases Height(st, id), 1, 0
  {
    if id !in st.nodes then current else DepthOver(st, id, |st.nodes[id].children|, current)
  }

  /** The loop of `depthFrom` over the first `n` children. */
  ghost function DepthOver(st: TreeState, id: NodeID, n: nat, current: nat): nat
    requires WellFormed(st) && id in st.nodes && n <= |st.nodes[id].children|
    decreases Height(st, id), 0, n
  {
    if n == 0 then current
    else
      var c := st.nodes[id].children[n - 1];
      HeightFalls(st, id, c);
      Max(DepthOver(st, id, n - 1, current), Depth(st, c, current + 1))
  }

  /** A walk along child links. */
  ghost predicate IsChain(st: TreeState, path: seq<NodeID>) {
    && path != [] && path[0] in st.nodes
    && forall i :: 0 <= i < |path| - 1 ==> path[i] in st.nodes && path[i + 1] in st.nodes[path[i]].children
  }

  lemma {:induction false} ChainStays(st: TreeState, path: seq<NodeID>, i: nat)
    requires WellFormed(st) && IsChain(st, path) && i < |path|
    ensures path[i] in st.nodes
    ensures i > 0 ==> Height(st, path[i]) < Height(st, path[0]) && st.nodes[path[i]].parent == path[i - 1]
  {
    if i > 0 {
      ChainStays(st, path, i - 1);
      assert path[i - 1 + 1] in st.nodes[path[i - 1]].children;
      HeightFalls(st, path[i - 1], path[i]);
    }
  }

  lemma TailIsChain(st: TreeState, path: seq<NodeID>)
    requires IsChain(st, path) && |path| > 1
    ensures path[1] in st.nodes[path[0]].children
    ensures path[1] in st.nodes ==> IsChain(st, path[1..])
  {
    var rest := path[1..];
    assert path[0 + 1] in st.nodes[path[0]].children;
    forall i | 0 <= i < |rest| - 1 ensures rest[i] in st.nodes && rest[i + 1] in st.nodes[rest[i]].children {
      assert path[i + 1] in st.nodes && path[i + 1 + 1] in st.nodes[path[i + 1]].children;
    }
  }

  lemma ExtendedIsChain(st: TreeState, id: NodeID, rest: seq<NodeID>)
    requires IsChain(st, rest) && id in st.nodes && rest[0] in st.nodes[id].children
    ensures IsChain(st, [id] + rest)
  {
    var path := [id] + rest;
    forall i | 0 <= i < |path| - 1 ensures path[i] in st.nodes && path[i + 1] in st.nodes[path[i]].children {
      if i > 0 {
        assert path[i] == rest[i - 1] && path[i + 1] == rest[i - 1 + 1];
      }
    }
  }

  lemma DepthAtLeast(st: TreeState, id: NodeID, current: nat)
    requires WellFormed(st) && id in st.nodes
    ensures current <= Depth(st, id, current)
  {
    DepthOverAtLeast(st, id, |st.nodes[id].children|, current);
  }

  /** A node is at least as deep as each of its children, seen from one level further down. */
  lemma DepthThrough(st: TreeState, id: NodeID, c: NodeID, current: nat)
    requires WellFormed(st) && id in st.nodes && c in st.nodes[id].children
    ensures Depth(st, c, current + 1) <= Depth(st, id, current)
  {
    var k :| 0 <= k < |st.nodes[id].children| && st.nodes[id].children[k] == c;
    DepthOverChild(st, id, k, |st.nodes[id].children|, current);
  }

  /** No chain through the tree is longer than the depth. */
  lemma {:induction false} ChainsAreShort(st: TreeState, path: seq<NodeID>, current: nat)
    requires WellFormed(st) && IsChain(st, path)
    ensures current + |path| - 1 <= Depth(st, path[0], current)
    decreases |path|
  {
    if |path| == 1 {
      DepthAtLeast(st, path[0], current);
    } else {
      ChainStays(st, path, 1);
      TailIsChain(st, path);
      ChainsAreShort(st, path[1..], current + 1);
      DepthThrough(st, path[0], path[1], current);
    }
  }

  lemma DepthOverIs(st: TreeState, id: NodeID, n: nat, current: nat)
    requires WellFormed(st) && id in st.nodes && 0 < n <= |st.nodes[id].children|
    ensures DepthOver(st, id, n, current)
         == Max(DepthOver(st, id, n - 1, current), Depth(st, st.nodes[id].children[n - 1], current + 1))
  {
  }

  lemma {:induction false} DepthOverAtLeast(st: TreeState, id: NodeID, n: nat, current: nat)
    requires WellFormed(st) && id in st.nodes && n <= |st.nodes[id].children|
    ensures current <= DepthOver(st, id, n, current)
  {
    if n > 0 {
      DepthOverAtLeast(st, id, n - 1, current);
      DepthOverGrows(st, id, n - 1, current);
    }
  }

  lemma {:induction false} DepthOverChild(st: TreeState, id: NodeID, k: nat, n: nat, current: nat)
    requires WellFormed(st) && id in st.nodes && k < n <= |st.nodes[id].children|
    ensures Depth(st, st.nodes[id].children[k], current + 1) <= DepthOver(st, id, n, current)
    decreases n
  {
    if k < n - 1 {
      DepthOverChild(st, id, k, n - 1, current);
      DepthOverGrows(st, id, n - 1, current);
    } else {
      DepthOverLast(st, id, k, current);
    }
  }

  lemma DepthOverGrows(st: TreeState, id: NodeID, n: nat, current: nat)
    requires WellFormed(st) && id in st.nodes && n < |st.nodes[id].children|
    ensures DepthOver(st, id, n, current) <= DepthOver(st, id, n + 1, current)
  {
  }

  lemma DepthOverLast(st: TreeState, id: NodeID, n: nat, current: nat)
    requires WellFormed(st) && id in st.nodes && n < |st.nodes[id].children|
    ensures Depth(st, st.nodes[id].children[n], current + 1) <= DepthOver(st, id, n + 1, current)
  {
  }

  /** Some chain is as long as the depth. */
  lemma {:induction false} SomeChainIsDeep(st: TreeState, id: NodeID, current: nat) returns (path: seq<NodeID>)
    requires WellFormed(st) && id in st.nodes
    ensures IsChain(st, path) && path[0] == id && current + |path| - 1 == Depth(st, id, current)
    decreases Height(st, id), 1, 0
  {
    path := SomeChainOver(st, id, |st.nodes[id].children|, current);
  }

  lemma {:induction false} SomeChainOver(st: TreeState, id: NodeID, n: nat, current: nat) returns (path: seq<NodeID>)
    requires WellFormed(st) && id in st.nodes && n <= |st.nodes[id].children|
    ensures IsChain(st, path) && path[0] == id && current + |path| - 1 == DepthOver(st, id, n, current)
    decreases Height(st, id), 0, n
  {
    if n == 0 {
      path := [id];
    } else {
      var c := st.nodes[id].children[n - 1];
      path := SomeChainOver(st, id, n - 1, current);
      HeightFalls(st, id, c);
      DepthOverIs(st, id, n, current);
      if Depth(st, c, current + 1) > DepthOver(st, id, n - 1, current) {
        var rest := SomeChainIsDeep(st, c, current + 1);
        ExtendedIsChain(st, id, rest);
        path := [id] + rest;
      }
    }
  }

  lemma FrontIsChain(st: TreeState, path: seq<NodeID>)
    requires IsChain(st, path) && |path| > 1
    ensures IsChain(st, path[..|path| - 1])
  {
    var front := path[..|path| - 1];
    forall i | 0 <= i < |front| - 1 ensures front[i] in st.nodes && front[i + 1] in st.nodes[front[i]].children {
      assert path[i] in st.nodes && path[i + 1] in st.nodes[path[i]].children;
    }
  }

  lemma SameChain(a: seq<NodeID>, b: seq<NodeID>)
    requires a != [] && b != [] && a[..|a| - 1] == b[..|b| - 1] && a[|a| - 1] == b[|b| - 1]
    ensures a == b
  {
    assert a == a[..|a| - 1] + [a[|a| - 1]];
    assert b == b[..|b| - 1] + [b[|b| - 1]];
  }

  /** The recursion reaches a node along one chain only, so it visits no node twice. */
  lemma {:induction false} OneChainPerNode(st: TreeState, a: seq<NodeID>, b: seq<NodeID>)
    requires WellFormed(st) && IsChain(st, a) && IsChain(st, b)
    requires a[0] == b[0] && a[|a| - 1] == b[|b| - 1]
    ensures a == b
    decreases |a|
  {
    ChainStays(st, a, |a| - 1);
    ChainStays(st, b, |b| - 1);
    if |a| > 1 && |b| > 1 {
      FrontIsChain(st, a);
      FrontIsChain(st, b);
      OneChainPerNode(st, a[..|a| - 1], b[..|b| - 1]);
      SameChain(a, b);
    }
  }

  // ---------------------------------------------------------------- the mutable tree

  function Widest(nodes: Nodes, ids: set<NodeID>, w: nat): bool
    requires forall id :: id in ids ==> id in nodes
  {
    (forall id :: id in ids ==> |nodes[id].children| <= w)
    && (w == 0 || exists id :: id in ids && |nodes[id].children| == w)
  }

  function WithStatus(nodes: Nodes, ids: set<NodeID>, status: NodeStatus): set<NodeID> {
    set id | id in ids && id in nodes && nodes[id].status == status
  }

  datatype TreeStats = TreeStats(total: nat, active: nat, compressed: nat, archived: nat, maxDepth: nat, maxWidth: nat)

  /** The counts over the nodes seen so far; depth is not among them. */
  predicate AreCounts(nodes: Nodes, seen: set<NodeID>, s: TreeStats)
    requires seen <= nodes.Keys
  {
    && s.total == |seen|
    && s.active == |WithStatus(nodes, seen, Active)|
    && s.compressed == |WithStatus(nodes, seen, Compressed)|
    && s.archived == |WithStatus(nodes, seen, Archived)|
    && Widest(nodes, seen, s.maxWidth)
  }

  ghost predicate AreStats(st: TreeState, s: TreeStats)
    requires WellFormed(st)
  {
    AreCounts(st.nodes, st.nodes.Keys, s) && s.maxDepth == Depth(st, st.root, 0)
  }

  /** Every tree has statistics. */
  lemma SomeStats(st: TreeState) returns (s: TreeStats)
    requires WellFormed(st)
    ensures AreStats(st, s)
  {
    s := SomeCounts(st.nodes, st.nodes.Keys);
    s := s.(maxDepth := Depth(st, st.root, 0));
  }

  lemma {:induction false} SomeCounts(nodes: Nodes, seen: set<NodeID>) returns (s: TreeStats)
    requires seen <= nodes.Keys
    ensures AreCounts(nodes, seen, s)
  {
    if seen == {} {
      s := TreeStats(0, 0, 0, 0, 0, 0);
    } else {
      var id :| id in seen;
      s := SomeCounts(nodes, seen - {id});
      TallyStep(nodes, seen - {id}, id, s);
      assert seen - {id} + {id} == seen;
      s := Tally(s, nodes[id]);
    }
  }

  /** The statistics of a tree are determined by it. */
  lemma StatsAreUnique(st: TreeState, s: TreeStats, t: TreeStats)
    requires WellFormed(st) && AreStats(st, s) && AreStats(st, t)
    ensures s == t
  {
    if s.maxWidth > 0 {
      var id :| id in st.nodes && |st.nodes[id].children| == s.maxWidth;
      assert |st.nodes[id].children| <= t.maxWidth;
    }
    if t.maxWidth > 0 {
      var id :| id in st.nodes && |st.nodes[id].children| == t.maxWidth;
      assert |st.nodes[id].children| <= s.maxWidth;
    }
  }

  lemma CountStep(nodes: Nodes, seen: set<NodeID>, id: NodeID, status: NodeStatus)
    requires id in nodes && id !in seen
    ensures |WithStatus(nodes, seen + {id}, status)|
         == |WithStatus(nodes, seen, status)| + if nodes[id].status == status then 1 else 0
  {
    var before, after := WithStatus(nodes, seen, status), WithStatus(nodes, seen + {id}, status);
    if nodes[id].status == status {
      assert after == before + {id};
    } else {
      assert after == before;
    }
  }

  /** One turn of the counting loop. */
  function Tally(s: TreeStats, n: Node): TreeStats {
    var w := |n.children|;
    s.(total := s.total + 1,
       active := s.active + if n.status == Active then 1 else 0,
       compressed := s.compressed + if n.status == Compressed then 1 else 0,
       archived := s.archived + if n.status == Archived then 1 else 0,
       maxWidth := if w > s.maxWidth then w else s.maxWidth)
  }

  lemma TallyStep(nodes: Nodes, seen: set<NodeID>, id: NodeID, s: TreeStats)
    requires seen <= nodes.Keys && id in nodes && id !in seen && AreCounts(nodes, seen, s)
    ensures AreCounts(nodes, seen + {id}, Tally(s, nodes[id]))
  {
    CountStep(nodes, seen, id, Active);
    CountStep(nodes, seen, id, Compressed);
    CountStep(nodes, seen, id, Archived);
  }

  class Tree {
    const session: string
    var root: NodeID
    var nodes: Nodes
    var turnCount: nat

    ghost function State(): TreeState
      reads this
    {
      TreeState(session, root, nodes, turnCount)
    }

    constructor (session: string)
      ensures State() == NewTreeState(session)
    {
      this.session, root, turnCount := session, RootID(session), 0;
      nodes := map[RootID(session) := NewRoot(session)];
    }

    constructor RestoreFromSnapshot(session: string, snapshot: seq<Node>)
      ensures State() == RestoredFrom(session, snapshot)
      ensures DistinctIds(snapshot) ==> IsRestored(State(), session, ById(snapshot))
    {
      this.session, root, nodes, turnCount := session, NoID, map[], 0;
      new;
      for i := 0 to |snapshot|
        invariant State() == RestoredFrom(session, snapshot[..i])
      {
        var n := snapshot[i];
        assert snapshot[..i + 1][..i] == snapshot[..i];
        nodes := nodes[n.id := n];
        if n.parent == NoID || n.kind == NodeGoal {
          root := n.id;
        }
        if n.turn > turnCount {
          turnCount := n.turn;
        }
      }
      assert snapshot[..|snapshot|] == snapshot;
      RestoredFromIs(session, snapshot);
    }

    method IncrementTurn() returns (turn: nat)
      modifies this`turnCount
      ensures State() == old(State()).(turns := old(turnCount) + 1) && turn == turnCount
    {
      turnCount := turnCount + 1;
      turn := turnCount;
    }

    /** `findBestParent`: the newest active node wins; ties fall to the map's iteration order. */
    method FindBestParent(kind: NodeType) returns (parent: NodeID)
      ensures IsBestParent(State(), kind, parent)
    {
      if kind == NodeGoal || kind == NodeConstraint {
        return root;
      }
      var best: Option<NodeID> := None;
      var rest := nodes.Keys;
      ghost var seen := {};
      while rest != {}
        invariant rest <= nodes.Keys && seen == WithStatus(nodes, nodes.Keys - rest, Active)
        invariant if best.None? then seen == {} else IsNewest(nodes, seen, best.value)
        decreases rest
      {
        var id :| id in rest;
        rest := rest - {id};
        ghost var before := seen;
        seen := WithStatus(nodes, nodes.Keys - rest, Active);
        if nodes[id].status != Active {
          assert seen == before;
          continue;
        }
        assert seen == before + {id};
        if best.None? || nodes[id].turn > nodes[best.value].turn {
          best := Some(id);
        }
      }
      assert seen == ActiveIds(nodes);
      parent := if best.Some? then best.value else root;
    }

    method AddNode(t: Texts, ev: Event) returns (id: NodeID, ghost parent: NodeID)
      modifies this`nodes
      ensures IsBestParent(old(State()), Classify(t.lower, ev), parent)
      ensures id == EventNodeID(session, turnCount)
      ensures State() == Added(old(State()), NewNode(t, session, turnCount, parent, ev))
      ensures parent in old(nodes) && parent != id ==>
                parent in nodes && nodes[parent] == old(nodes)[parent].(children := old(nodes)[parent].children + [id])
      ensures forall p :: p in old(nodes) && p != parent && p != id ==> p in nodes && nodes[p] == old(nodes)[p]
      ensures nodes.Keys == old(nodes).Keys + {id}
    {
      var p := FindBestParent(Classify(t.lower, ev));
      parent := p;
      var node := NewNode(t, session, turnCount, p, ev);
      id := node.id;
      nodes := nodes[id := node];
      if p in nodes {
        nodes := nodes[p := nodes[p].(children := nodes[p].children + [id])];
      }
    }

    /** The ids of the active nodes, in the map's iteration order. */
    method GetActiveNodes() returns (active: seq<NodeID>)
      ensures Enumerates(active, ActiveIds(nodes))
    {
      active := [];
      var rest := nodes.Keys;
      while rest != {}
        invariant rest <= nodes.Keys && NoDup(active)
        invariant Elems(active) == WithStatus(nodes, nodes.Keys - rest, Active)
        decreases rest
      {
        var id :| id in rest;
        ghost var before := nodes.Keys - rest;
        rest := rest - {id};
        assert nodes.Keys - rest == before + {id};
        if nodes[id].status == Active {
          assert id !in Elems(active);
          EnumeratesSnoc(active, id);
          active := active + [id];
        }
      }
    }

    method UpdateNodeStatus(id: NodeID, status: NodeStatus)
      modifies this`nodes
      ensures nodes == if id in old(nodes) then old(nodes)[id := old(nodes)[id].(status := status)] else old(nodes)
    {
      if id in nodes {
        nodes := nodes[id := nodes[id].(status := status)];
      }
    }

    method ReplaceWithCompressed(parent: NodeID, ids: seq<NodeID>, branch: Node)
      modifies this`nodes
      ensures nodes == Replaced(old(nodes), parent, ids, branch)
    {
      for i := 0 to |ids|
        invariant nodes == Archive(old(nodes), Elems(ids[..i]))
      {
        assert Elems(ids[..i + 1]) == Elems(ids[..i]) + {ids[i]} by {
          assert ids[..i + 1] == ids[..i] + [ids[i]];
        }
        if ids[i] in nodes {
          nodes := nodes[ids[i] := nodes[ids[i]].(status := Archived)];
        }
      }
      assert ids[..|ids|] == ids;
      nodes := nodes[branch.id := branch];
      if parent in nodes {
        var children := nodes[parent].children;
        var remaining := [];
        for i := 0 to |children|
          invariant remaining == Without(children[..i], Elems(ids))
        {
          assert children[..i + 1][..i] == children[..i];
          if children[i] !in ids {
            remaining := remaining + [children[i]];
          }
        }
        assert children[..|children|] == children;
        nodes := nodes[parent := nodes[parent].(children := remaining + [branch.id])];
      }
    }

    /** The counting loop of `Stats`. */
    method CountNodes() returns (s: TreeStats)
      ensures AreCounts(nodes, nodes.Keys, s)
    {
      s := TreeStats(0, 0, 0, 0, 0, 0);
      var rest := nodes.Keys;
      ghost var seen := {};
      while rest != {}
        invariant rest !! seen && rest + seen == nodes.Keys && AreCounts(nodes, seen, s)
        decreases rest
      {
        var id :| id in rest;
        TallyStep(nodes, seen, id, s);
        s := Tally(s, nodes[id]);
        rest := rest - {id};
        seen := seen + {id};
      }
      assert seen == nodes.Keys;
    }

    method Stats() returns (s: TreeStats)
      requires WellFormed(State())
      ensures AreStats(State(), s)
    {
      s := CountNodes();
      var depth := DepthFrom(root, 0);
      s := s.(maxDepth := depth);
    }

    method DepthFrom(id: NodeID, current: nat) returns (max: nat)
      requires WellFormed(State())
      ensures max == Depth(State(), id, current)
      decreases Height(State(), id)
    {
      if id !in nodes {
        return current;
      }
      ghost var st := State();
      max := current;
      for i := 0 to |nodes[id].children|
        invariant max == DepthOver(st, id, i, current)
      {
        var c := nodes[id].children[i];
        HeightFalls(st, id, c);
        DepthOverIs(st, id, i + 1, current);
        var d := DepthFrom(c, current + 1);
        if d > max {
          max := d;
        }
      }
    }
  }
}
