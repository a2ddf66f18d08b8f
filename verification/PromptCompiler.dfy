/** The prompt compiler: seven buckets in priority order, greedy selection, and rendering. */
module PromptCompiler {
  import opened Collections
  import opened Domain
  import opened Text
  import opened Entities
  import opened Sorting
  import opened Selection

  type Counter = string -> nat

  /** `stable` is the switch for cache-stable rendering. */
  datatype Compiler = Compiler(budget: int, count: Counter, stable: bool)

  const SECTIONS := 7
  const LABELS := ["Active Goals", "Constraints", "Key Decisions", "Prior Context", "Tool Outputs", "Open Issues",
                   "Additional Context"]
  const SEPARATOR := "\n\n---\n\n"

  /** The bucket of a node; buckets are numbered by priority. */
  function SectionOf(kind: NodeType): (i: nat)
    ensures i < SECTIONS
  {
    match kind
    case NodeGoal => 0
    case NodeConstraint => 1
    case NodeDecision => 2
    case NodeCompressedBranch => 3
    case NodeSummary => 3
    case NodeToolResult => 4
    case NodeIssue => 5
    case _ => 6
  }

  function Bucket(nodes: seq<Node>, i: nat): seq<Node> {
    if nodes == [] then []
    else
      var n := nodes[|nodes| - 1];
      Bucket(nodes[..|nodes| - 1], i) + if SectionOf(n.kind) == i then [n] else []
  }

  /** The score a node is ranked by: an effective score, where there is one, or its retention score. */
  function RankOf(effective: Option<map<NodeID, real>>, n: Node): real {
    if effective.Some? && n.id in effective.value then effective.value[n.id] else n.scores.retention
  }

  function Ranking(effective: Option<map<NodeID, real>>): Node -> real {
    n => RankOf(effective, n)
  }

  /** The buckets of `nodes`, each sorted by score; equal scores may stand in any order. */
  ghost predicate AreRanked(nodes: seq<Node>, effective: Option<map<NodeID, real>>, buckets: seq<seq<Node>>) {
    |buckets| == SECTIONS && forall i :: 0 <= i < SECTIONS ==> IsRankedBucket(nodes, effective, buckets[i], i)
  }

  ghost predicate IsRankedBucket(nodes: seq<Node>, effective: Option<map<NodeID, real>>, bucket: seq<Node>, i: nat) {
    multiset(bucket) == multiset(Bucket(nodes, i)) && Descending(Ranking(effective), bucket)
  }

  // ---------------------------------------------------------------- cost

  predicate EmitsFactsLine(n: Node) {
    n.kind == NodeCompressedBranch || n.kind == NodeSummary
  }

  function CostOf(count: Counter, n: Node): int {
    (if n.tokens == 0 then count(n.summary) else n.tokens)
    + if EmitsFactsLine(n) then count(Join(n.facts, "; ")) + count(Join(n.decisions, "; ")) else 0
  }

  function Costs(count: Counter): Cost<Node> { n => CostOf(count, n) }

  // ---------------------------------------------------------------- rendering

  /** What cache-stable rendering sorts by. */
  type RenderKey = (nat, string)

  function KeyOf(n: Node): RenderKey { (n.turn, Render(n.id)) }

  predicate KeyLess(a: RenderKey, b: RenderKey) {
    a.0 < b.0 || (a.0 == b.0 && LexLess(a.1, b.1))
  }

  function RenderOrder(): (Node, Node) -> bool { (m, n) => KeyLess(KeyOf(m), KeyOf(n)) }

  method StabilizeRenderOrder(nodes: seq<Node>) returns (out: seq<Node>)
    ensures out == Arranged(RenderOrder(), nodes)
  {
    if |nodes| <= 1 {
      assert Arranged(RenderOrder(), []) == [];
      assert |nodes| == 1 ==> nodes[..0] == [];
      return nodes;
    }
    out := StableSort(RenderOrder(), nodes);
  }

  function InRenderOrder(stable: bool, selected: seq<Node>): seq<Node> {
    if stable then Arranged(RenderOrder(), selected) else selected
  }

  function HeadLine(n: Node): string {
    if n.summary != "" then "- " + n.summary + "\n" else if n.title != "" then "- " + n.title + "\n" else ""
  }

  function FactLines(n: Node): string {
    (if |n.facts| > 0 then "  facts: " + Join(n.facts, "; ") + "\n" else "")
    + if |n.decisions| > 0 then "  decisions: " + Join(n.decisions, "; ") + "\n" else ""
  }

  function NodeText(n: Node): string {
    HeadLine(n) + if EmitsFactsLine(n) then FactLines(n) else ""
  }

  function NodeTexts(nodes: seq<Node>): string {
    if nodes == [] then "" else NodeTexts(nodes[..|nodes| - 1]) + NodeText(nodes[|nodes| - 1])
  }

  function SectionText(heading: string, nodes: seq<Node>): string {
    "## " + heading + "\n" + NodeTexts(nodes)
  }

  /** The lines of one node, as they are written. */
  method FormatNode(n: Node) returns (text: string)
    ensures text == NodeText(n)
  {
    text := HeadLine(n);
    if !EmitsFactsLine(n) {
      return;
    }
    var facts, decisions := "", "";
    if |n.facts| > 0 {
      facts := "  facts: " + Join(n.facts, "; ") + "\n";
    }
    if |n.decisions| > 0 {
      decisions := "  decisions: " + Join(n.decisions, "; ") + "\n";
    }
    text := text + (facts + decisions);
  }

  lemma ConcatAssociates(a: string, b: string, c: string)
    ensures a + b + c == a + (b + c)
  {
  }

  method FormatSection(heading: string, nodes: seq<Node>) returns (text: string)
    ensures text == SectionText(heading, nodes)
  {
    var head := "## " + heading + "\n";
    text := head;
    for i := 0 to |nodes|
      invariant text == head + NodeTexts(nodes[..i])
    {
      assert nodes[..i + 1][..i] == nodes[..i];
      var lines := FormatNode(nodes[i]);
      ConcatAssociates(head, NodeTexts(nodes[..i]), lines);
      text := text + lines;
    }
    assert nodes[..|nodes|] == nodes;
  }

  function Label(i: nat): string { if i < |LABELS| then LABELS[i] else "" }

  /** The sections of the prompt: one for every bucket from which something was taken. */
  function SectionTexts(stable: bool, chosen: seq<seq<Node>>): seq<string> {
    if chosen == [] then []
    else
      var i := |chosen| - 1;
      SectionTexts(stable, chosen[..i])
      + if chosen[i] == [] then [] else [SectionText(Label(i), InRenderOrder(stable, chosen[i]))]
  }

  // ---------------------------------------------------------------- the compiled prompt

  datatype CompiledPrompt = CompiledPrompt(
    finalPrompt: string, originalTokens: int, compiledTokens: int,
    activeGoal: string, activeConstraints: seq<string>, relevantDecisions: seq<string>,
    compressedContext: seq<string>, relevantToolOutputs: seq<string>, openIssues: seq<string>,
    excludedRefs: seq<NodeID>)

  function Summaries(nodes: seq<Node>): seq<string> {
    seq(|nodes|, i requires 0 <= i < |nodes| => nodes[i].summary)
  }

  function Ids(nodes: seq<Node>): seq<NodeID> {
    seq(|nodes|, i requires 0 <= i < |nodes| => nodes[i].id)
  }

  function AllTokens(nodes: seq<Node>): int {
    if nodes == [] then 0 else AllTokens(nodes[..|nodes| - 1]) + nodes[|nodes| - 1].tokens
  }

  /** The tokens of the messages that are sent beside the compiled prompt. */
  function Reserve(count: Counter, systemPrompt: string, userMessage: string): int {
    (if systemPrompt != "" then count(systemPrompt) else 0) + if userMessage != "" then count(userMessage) else 0
  }

  /** The summaries listed from bucket `k`, as rendered. */
  function Listed(stable: bool, chosen: seq<seq<Node>>, k: nat): seq<string> {
    if k < |chosen| then Summaries(InRenderOrder(stable, chosen[k])) else []
  }

  /** The selection for ranked buckets. */
  function SelectionFor(c: Compiler, systemPrompt: string, userMessage: string, buckets: seq<seq<Node>>): Picked<Node> {
    Pick(Costs(c.count), buckets, c.budget - Reserve(c.count, systemPrompt, userMessage))
  }

  function FinalPrompt(stable: bool, chosen: seq<seq<Node>>): string {
    Join(SectionTexts(stable, chosen), SEPARATOR)
  }

  /** The tokens of the compiled text and of the messages sent beside it. */
  function CompiledTokens(c: Compiler, systemPrompt: string, userMessage: string, chosen: seq<seq<Node>>): int {
    c.count(systemPrompt) + c.count(FinalPrompt(c.stable, chosen)) + c.count(userMessage)
  }

  /** The prompt compiled from ranked buckets. */
  function Compiled(c: Compiler, systemPrompt: string, userMessage: string, nodes: seq<Node>,
                    buckets: seq<seq<Node>>): CompiledPrompt
    requires |buckets| == SECTIONS
  {
    var p := SelectionFor(c, systemPrompt, userMessage, buckets);
    CompiledPrompt(
      FinalPrompt(c.stable, p.chosen),
      c.count(systemPrompt) + c.count(userMessage) + AllTokens(nodes),
      CompiledTokens(c, systemPrompt, userMessage, p.chosen),
      if buckets[0] != [] then buckets[0][0].title else "", Summaries(buckets[1]),
      Listed(c.stable, p.chosen, 2), Listed(c.stable, p.chosen, 3),
      Listed(c.stable, p.chosen, 4), Listed(c.stable, p.chosen, 5),
      Ids(p.noted))
  }

  // ---------------------------------------------------------------- compile

  /** One pass over the nodes. */
  method FillBuckets(nodes: seq<Node>) returns (buckets: seq<seq<Node>>, tokens: int)
    ensures |buckets| == SECTIONS && forall i :: 0 <= i < SECTIONS ==> buckets[i] == Bucket(nodes, i)
    ensures tokens == AllTokens(nodes)
  {
    buckets, tokens := [[], [], [], [], [], [], []], 0;
    for k := 0 to |nodes|
      invariant |buckets| == SECTIONS && forall i :: 0 <= i < SECTIONS ==> buckets[i] == Bucket(nodes[..k], i)
      invariant tokens == AllTokens(nodes[..k])
    {
      assert nodes[..k + 1][..k] == nodes[..k];
      var s := SectionOf(nodes[k].kind);
      buckets := buckets[s := buckets[s] + [nodes[k]]];
      tokens := tokens + nodes[k].tokens;
    }
    assert nodes[..|nodes|] == nodes;
  }

  method RankBuckets(nodes: seq<Node>, effective: Option<map<NodeID, real>>, buckets: seq<seq<Node>>)
    returns (ranked: seq<seq<Node>>)
    requires |buckets| == SECTIONS && forall i :: 0 <= i < SECTIONS ==> buckets[i] == Bucket(nodes, i)
    ensures AreRanked(nodes, effective, ranked)
  {
    ranked := [];
    for i := 0 to SECTIONS
      invariant |ranked| == i && forall k :: 0 <= k < i ==> IsRankedBucket(nodes, effective, ranked[k], k)
    {
      var sorted := SortDescending(Ranking(effective), buckets[i]);
      ranked := ranked + [sorted];
    }
  }

  method JoinSections(sections: seq<string>) returns (text: string)
    ensures text == Join(sections, SEPARATOR)
  {
    text := "";
    for i := 0 to |sections|
      invariant text == Join(sections[..i], SEPARATOR)
    {
      JoinStep(sections, i, SEPARATOR);
      text := if i > 0 then text + SEPARATOR + sections[i] else sections[i];
    }
    assert sections[..|sections|] == sections;
  }

  /** What the loop over the buckets has gathered. */
  datatype Gathered = Gathered(
    sections: seq<string>, decisions: seq<string>, context: seq<string>, tools: seq<string>, issues: seq<string>,
    excluded: seq<NodeID>, remaining: int)

  function GatheredFrom(stable: bool, p: Picked<Node>): Gathered {
    Gathered(SectionTexts(stable, p.chosen), Listed(stable, p.chosen, 2), Listed(stable, p.chosen, 3),
             Listed(stable, p.chosen, 4), Listed(stable, p.chosen, 5), Ids(p.noted), p.left)
  }

  /** A bucket from which nothing is taken. */
  lemma NothingGathered(stable: bool, p: Picked<Node>)
    ensures GatheredFrom(stable, p.(chosen := p.chosen + [[]])) == GatheredFrom(stable, p)
  {
    assert (p.chosen + [[]])[..|p.chosen|] == p.chosen;
    assert Arranged(RenderOrder(), []) == [];
    assert Summaries([]) == [];
  }

  /** A bucket from which something is taken. */
  lemma SomethingGathered(stable: bool, p: Picked<Node>, selected: seq<Node>, excluded: seq<Node>, used: int)
    requires selected != []
    ensures var q := Picked(p.chosen + [selected], p.noted + excluded, p.left - used);
      var g, render, k := GatheredFrom(stable, p), InRenderOrder(stable, selected), |p.chosen|;
      GatheredFrom(stable, q) == Gathered(
        g.sections + [SectionText(Label(k), render)],
        if k == 2 then Summaries(render) else g.decisions, if k == 3 then Summaries(render) else g.context,
        if k == 4 then Summaries(render) else g.tools, if k == 5 then Summaries(render) else g.issues,
        g.excluded + Ids(excluded), g.remaining - used)
  {
    assert (p.chosen + [selected])[..|p.chosen|] == p.chosen;
    assert Ids(p.noted + excluded) == Ids(p.noted) + Ids(excluded);
  }

  /** One turn of the loop over the buckets: bucket `i`. */
  method GatherBucket(c: Compiler, i: nat, bucket: seq<Node>, g: Gathered, ghost p: Picked<Node>) returns (g': Gathered)
    requires g == GatheredFrom(c.stable, p) && i == |p.chosen|
    ensures g' == GatheredFrom(c.stable, PickOne(Costs(c.count), p, bucket))
  {
    NothingGathered(c.stable, p);
    g' := g;
    if g.remaining <= 0 || |bucket| == 0 {
      return;
    }
    var selected, excluded, used := SelectWithinBudget(Costs(c.count), bucket, g.remaining);
    if |selected| > 0 {
      SomethingGathered(c.stable, p, selected, excluded, used);
      var render := selected;
      if c.stable {
        render := StabilizeRenderOrder(selected);
      }
      var text := FormatSection(Label(i), render);
      g' := g'.(sections := g.sections + [text], excluded := g.excluded + Ids(excluded),
                remaining := g.remaining - used);
      match i {
        case 2 => g' := g'.(decisions := Summaries(render));
        case 3 => g' := g'.(context := Summaries(render));
        case 4 => g' := g'.(tools := Summaries(render));
        case 5 => g' := g'.(issues := Summaries(render));
        case _ =>
      }
    }
  }

  /** The loop over the buckets. */
  method Gather(c: Compiler, buckets: seq<seq<Node>>, remaining: int, ghost picked: Picked<Node>)
    returns (g: Gathered)
    requires picked == Pick(Costs(c.count), buckets, remaining)
    ensures g == GatheredFrom(c.stable, picked)
  {
    g := Gathered([], [], [], [], [], [], remaining);
    ghost var p := Pick(Costs(c.count), [], remaining);
    for i := 0 to |buckets|
      invariant p == Pick(Costs(c.count), buckets[..i], remaining) && g == GatheredFrom(c.stable, p)
    {
      PickStep(Costs(c.count), buckets, remaining, i);
      PickFits(Costs(c.count), buckets[..i], remaining);
      g := GatherBucket(c, i, buckets[i], g, p);
      p := PickOne(Costs(c.count), p, buckets[i]);
    }
    assert buckets[..|buckets|] == buckets;
  }

  method ReserveTokens(count: Counter, systemPrompt: string, userMessage: string) returns (used: int)
    ensures used == Reserve(count, systemPrompt, userMessage)
  {
    used := 0;
    if systemPrompt != "" {
      used := used + count(systemPrompt);
    }
    if userMessage != "" {
      used := used + count(userMessage);
    }
  }

  /** Selection and rendering from ranked buckets. */
  method Assemble(c: Compiler, systemPrompt: string, userMessage: string, nodes: seq<Node>, tokens: int,
                  buckets: seq<seq<Node>>)
    returns (cp: CompiledPrompt)
    requires |buckets| == SECTIONS && tokens == AllTokens(nodes)
    ensures cp == Compiled(c, systemPrompt, userMessage, nodes, buckets)
  {
    var used := ReserveTokens(c.count, systemPrompt, userMessage);
    ghost var p := SelectionFor(c, systemPrompt, userMessage, buckets);
    var g := Gather(c, buckets, c.budget - used, p);
    var text := JoinSections(g.sections);
    assert text == FinalPrompt(c.stable, p.chosen);
    cp := CompiledPrompt(
      text, c.count(systemPrompt) + c.count(userMessage) + tokens,
      c.count(systemPrompt) + c.count(text) + c.count(userMessage),
      if buckets[0] != [] then buckets[0][0].title else "", Summaries(buckets[1]),
      g.decisions, g.context, g.tools, g.issues, g.excluded);
  }

  /** `cp` is what these nodes compile to, for some order in which the sorts left nodes of equal score. */
  ghost predicate IsCompiled(c: Compiler, systemPrompt: string, userMessage: string, nodes: seq<Node>,
                             effective: Option<map<NodeID, real>>, cp: CompiledPrompt) {
    exists ranked: seq<seq<Node>> ::
      AreRanked(nodes, effective, ranked) && cp == Compiled(c, systemPrompt, userMessage, nodes, ranked)
  }

  /** The shared assembly path. */
  method Compile(c: Compiler, userMessage: string, nodes: seq<Node>, systemPrompt: string,
                 effective: Option<map<NodeID, real>>)
    returns (cp: CompiledPrompt)
    ensures IsCompiled(c, systemPrompt, userMessage, nodes, effective, cp)
  {
    var plain, tokens := FillBuckets(nodes);
    var buckets := RankBuckets(nodes, effective, plain);
    cp := Assemble(c, systemPrompt, userMessage, nodes, tokens, buckets);
  }
}
