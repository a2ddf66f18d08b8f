/** The entities that every part of the system shares: node identities, state nodes and events. */
module Domain {
  import opened Collections

  /** The identities the program prints into strings. `NoID` is the empty string. */
  datatype NodeID =
    | NoID
    | RootID(session: string)
    | EventNodeID(session: string, turn: nat)
    | CompressedID(stamp: nat)

  datatype NodeType =
    | NodeGoal | NodeConstraint | NodeDecision | NodeAttempt | NodeToolResult
    | NodeIssue | NodeSummary | NodeCompressedBranch | NodeBackground

  datatype NodeStatus = Active | Resolved | Stale | Compressed | Archived

  /** The components of a retention score, and the score itself. */
  datatype Scores = Scores(
    recency: real, dependencyWeight: real, redundancy: real, typePriority: real,
    unresolvedBoost: real, resolvedPenalty: real, stalePenalty: real, sizePenalty: real,
    semantic: real, retention: real)

  const ZERO_SCORES := Scores(0.0, 0.0, 0.0, 0.0, 0.0, 0.0, 0.0, 0.0, 0.0, 0.0)

  /** A state node. The empty `embedding` stands for a missing one. */
  datatype Node = Node(
    id: NodeID, parent: NodeID, kind: NodeType, status: NodeStatus,
    title: string, summary: string,
    facts: seq<string>, decisions: seq<string>, openIssues: seq<string>,
    dependencies: seq<NodeID>, eventRefs: seq<string>, children: seq<NodeID>,
    tokens: int, turn: nat, scores: Scores, embedding: seq<real>)

  type Nodes = map<NodeID, Node>

  datatype EventType =
    | EventUserPrompt | EventAgentPrompt | EventLLMResponse | EventToolCall | EventToolResult
    | EventError | EventRetry | EventGCTrigger | EventBranchComp | EventSnapshot | EventSystem
    | EventOther(name: string)

  datatype Event = Event(id: string, kind: EventType, payload: string, tokens: int)

  /** Ids of the nodes with status active. */
  function ActiveIds(nodes: Nodes): set<NodeID> {
    set id | id in nodes && nodes[id].status == Active
  }

  /** Total token count of those nodes of `nodes` whose ids are in `ids`. */
  ghost function TokensOn(nodes: Nodes, ids: set<NodeID>): int {
    Sum(map id | id in ids && id in nodes :: nodes[id].tokens)
  }

  ghost function ActiveTokens(nodes: Nodes): int {
    TokensOn(nodes, ActiveIds(nodes))
  }

  // ---------------------------------------------------------------- identities as strings

  function Digit(n: nat): char
    requires n < 10
  {
    ('0' as int + n) as char
  }

  predicate IsDigit(c: char) { '0' <= c <= '9' }

  function Decimal(n: nat): (s: string)
    ensures s != "" && forall i :: 0 <= i < |s| ==> IsDigit(s[i])
  {
    if n < 10 then [Digit(n)] else Decimal(n / 10) + [Digit(n % 10)]
  }

  /** The string the program stores for an identity. */
  function Render(id: NodeID): string {
    match id
    case NoID => ""
    case RootID(session) => "root_" + session
    case EventNodeID(session, turn) => "node_" + session + "_" + Decimal(turn)
    case CompressedID(stamp) => "compressed_" + Decimal(stamp)
  }

  lemma {:induction false} DecimalInjective(m: nat, n: nat)
    requires Decimal(m) == Decimal(n)
    ensures m == n
  {
    var a, b := Decimal(m), Decimal(n);
    assert a[|a| - 1] == b[|b| - 1];
    if m < 10 || n < 10 {
      assert |a| == 1 && |b| == 1;
    } else {
      assert a[..|a| - 1] == Decimal(m / 10);
      assert b[..|b| - 1] == Decimal(n / 10);
      DecimalInjective(m / 10, n / 10);
    }
  }

  /** A rendered node id splits at its last underscore only. */
  lemma SplitAtLastUnderscore(s: string, m: nat, t: string, n: nat)
    requires s + "_" + Decimal(m) == t + "_" + Decimal(n)
    ensures s == t && m == n
  {
    var x, a, b := s + "_" + Decimal(m), Decimal(m), Decimal(n);
    assert x[|s|] == '_' && x[|t|] == '_';
    assert forall i :: |s| < i < |x| ==> x[i] == a[i - |s| - 1] && IsDigit(x[i]);
    assert forall i :: |t| < i < |x| ==> x[i] == b[i - |t| - 1] && IsDigit(x[i]);
    assert |s| == |t|;
    assert s == x[..|s|] == t;
    assert a == x[|s| + 1..] == b;
    DecimalInjective(m, n);
  }

  /** Distinct identities print as distinct strings, whatever the session names look like. */
  lemma RenderInjective(a: NodeID, b: NodeID)
    requires Render(a) == Render(b)
    ensures a == b
  {
    var x, y := Render(a), Render(b);
    assert a.RootID? ==> x[0] == 'r';
    assert b.RootID? ==> y[0] == 'r';
    assert a.EventNodeID? ==> x[0] == 'n';
    assert b.EventNodeID? ==> y[0] == 'n';
    assert a.CompressedID? ==> x[0] == 'c';
    assert b.CompressedID? ==> y[0] == 'c';
    match a
    case NoID =>
    case RootID(s) =>
      assert s == x[5..] && b.session == y[5..];
    case EventNodeID(s, t) =>
      assert s + "_" + Decimal(t) == x[5..];
      assert b.session + "_" + Decimal(b.turn) == y[5..];
      SplitAtLastUnderscore(s, t, b.session, b.turn);
    case CompressedID(k) =>
      assert Decimal(k) == x[11..] && Decimal(b.stamp) == y[11..];
      DecimalInjective(k, b.stamp);
  }

  // ---------------------------------------------------------------- token sums

  lemma TokensNone(nodes: Nodes, ids: set<NodeID>)
    requires ids == {}
    ensures TokensOn(nodes, ids) == 0
  {
    var m := map i | i in ids && i in nodes :: nodes[i].tokens;
    assert m.Keys == {};
  }

  lemma TokensInsert(nodes: Nodes, ids: set<NodeID>, id: NodeID)
    requires id !in ids && id in nodes
    ensures TokensOn(nodes, ids + {id}) == TokensOn(nodes, ids) + nodes[id].tokens
  {
    var m := map i | i in ids && i in nodes :: nodes[i].tokens;
    assert (map i | i in ids + {id} && i in nodes :: nodes[i].tokens) == m[id := nodes[id].tokens];
    SumInsert(m, id, nodes[id].tokens);
  }

  lemma TokensDisjoint(nodes: Nodes, a: set<NodeID>, b: set<NodeID>)
    requires a !! b
    ensures TokensOn(nodes, a + b) == TokensOn(nodes, a) + TokensOn(nodes, b)
  {
    var ma := map i | i in a && i in nodes :: nodes[i].tokens;
    var mb := map i | i in b && i in nodes :: nodes[i].tokens;
    assert (map i | i in a + b && i in nodes :: nodes[i].tokens) == ma + mb;
    SumDisjoint(ma, mb);
  }

  /** Inclusion and exclusion for token counts. */
  lemma TokensUnion(nodes: Nodes, a: set<NodeID>, b: set<NodeID>)
    ensures TokensOn(nodes, a) + TokensOn(nodes, b)
         == TokensOn(nodes, a + b) + TokensOn(nodes, a * b)
  {
    TokensDisjoint(nodes, a, b - a);
    assert a + (b - a) == a + b;
    TokensDisjoint(nodes, b - a, a * b);
    assert (b - a) + a * b == b;
  }

  /** Only the token counts of the listed nodes matter. */
  lemma TokensAgree(a: Nodes, b: Nodes, ids: set<NodeID>)
    requires forall id :: id in ids ==> (id in a <==> id in b)
    requires forall id :: id in ids && id in a ==> a[id].tokens == b[id].tokens
    ensures TokensOn(a, ids) == TokensOn(b, ids)
  {
    assert (map i | i in ids && i in a :: a[i].tokens) == (map i | i in ids && i in b :: b[i].tokens);
  }
}
