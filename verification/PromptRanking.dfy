/** Better scores come first: what is promised to the highest ranked nodes of a compiled prompt. */
module PromptRanking {
  import opened Collections
  import opened Domain
  import opened Text
  import opened Sorting
  import opened Selection
  import opened PromptCompiler
  import opened PromptLaws

  // ---------------------------------------------------------------- greedy selection

  /** Of items in falling order, none that was left out ranks above one that was taken and costs no less. */
  lemma {:induction false} ChooseBestFirst<T>(cost: Cost<T>, key: T -> real, items: seq<T>, budget: int, x: T, y: T)
    requires NonNegative(cost, items) && Descending(key, items)
    requires x in Choose(cost, items, budget).excluded && y in Choose(cost, items, budget).selected
    requires cost(x) <= cost(y)
    ensures key(x) <= key(y)
  {
    var front, last := items[..|items| - 1], items[|items| - 1];
    ChooseStep(cost, items, budget);
    ChooseMembers(cost, front, budget);
    FrontKeeps(cost, key, items);
    var c := Choose(cost, front, budget);
    if x in c.excluded && y in c.selected {
      ChooseBestFirst(cost, key, front, budget, x, y);
    } else if x in c.excluded {
      ChooseIsMaximal(cost, front, budget);
    } else {
      assert x == last && y in front;
    }
  }

  lemma ChooseMembers<T>(cost: Cost<T>, items: seq<T>, budget: int)
    ensures forall x :: x in Choose(cost, items, budget).selected ==> x in items
    ensures forall x :: x in Choose(cost, items, budget).excluded ==> x in items
  {
    var c := Choose(cost, items, budget);
    ChooseParts(cost, items, budget);
    forall x | x in c.selected || x in c.excluded ensures x in items {
      assert x in multiset(c.selected) + multiset(c.excluded);
    }
  }

  lemma FrontKeeps<T>(cost: Cost<T>, key: T -> real, items: seq<T>)
    requires NonNegative(cost, items) && Descending(key, items) && items != []
    ensures NonNegative(cost, items[..|items| - 1]) && Descending(key, items[..|items| - 1])
    ensures forall y :: y in items[..|items| - 1] ==> key(items[|items| - 1]) <= key(y)
  {
  }

  lemma PickOneBestFirst<T>(cost: Cost<T>, key: T -> real, p: Picked<T>, bucket: seq<T>, x: T, y: T)
    requires NonNegative(cost, bucket) && Descending(key, bucket) && cost(x) <= cost(y)
    requires var chosen := PickOne(cost, p, bucket).chosen[|p.chosen|];
      x in multiset(bucket) - multiset(chosen) && y in chosen
    ensures key(x) <= key(y)
  {
    var c := Choose(cost, bucket, p.left);
    ChooseParts(cost, bucket, p.left);
    assert multiset(bucket) - multiset(c.selected) == multiset(c.excluded);
    ChooseBestFirst(cost, key, bucket, p.left, x, y);
  }

  /** The same within every bucket of the selection. */
  lemma {:induction false} PickBestFirst<T>(cost: Cost<T>, key: T -> real, buckets: seq<seq<T>>, budget: int, i: nat,
                                            x: T, y: T)
    requires AllNonNegative(cost, buckets) && LeftOut(cost, buckets, budget, i, x) && cost(x) <= cost(y)
    requires y in Pick(cost, buckets, budget).chosen[i] && Descending(key, buckets[i])
    ensures key(x) <= key(y)
    decreases |buckets|
  {
    var n := |buckets| - 1;
    FrontNonNegative(cost, buckets);
    if i < n {
      LeftOutEarlier(cost, buckets, budget, i, x);
      PickEarlier(cost, buckets, budget, i);
      PickBestFirst(cost, key, buckets[..n], budget, i, x, y);
    } else {
      PickFits(cost, buckets[..n], budget);
      PickOneBestFirst(cost, key, Pick(cost, buckets[..n], budget), buckets[n], x, y);
    }
  }

  // ---------------------------------------------------------------- compiled prompts

  /** `m` scores at least as high as `n`, by the effective scores where there are any. */
  predicate ScoresAsHigh(effective: Option<map<NodeID, real>>, m: Node, n: Node) {
    (if effective.Some? && m.id in effective.value then effective.value[m.id] else m.scores.retention)
      >= (if effective.Some? && n.id in effective.value then effective.value[n.id] else n.scores.retention)
  }

  lemma RanksAsHigh(effective: Option<map<NodeID, real>>, m: Node, n: Node)
    ensures Ranking(effective)(m) >= Ranking(effective)(n) <==> ScoresAsHigh(effective, m, n)
  {
  }

  /** The active goal that a prompt reports is the title of a goal of highest score; without goals it
      reports none. */
  lemma ActiveGoalIsBest(c: Compiler, systemPrompt: string, userMessage: string, nodes: seq<Node>,
                         effective: Option<map<NodeID, real>>, cp: CompiledPrompt)
    requires IsCompiled(c, systemPrompt, userMessage, nodes, effective, cp)
    ensures if exists n :: n in nodes && n.kind == NodeGoal
            then exists g :: g in nodes && g.kind == NodeGoal && g.title == cp.activeGoal
                             && forall n :: n in nodes && n.kind == NodeGoal ==> ScoresAsHigh(effective, g, n)
            else cp.activeGoal == ""
  {
    var ranked: seq<seq<Node>> :|
      AreRanked(nodes, effective, ranked) && cp == Compiled(c, systemPrompt, userMessage, nodes, ranked);
    assert cp.activeGoal == if ranked[0] != [] then ranked[0][0].title else "";
    if ranked[0] == [] {
      forall n | n in nodes ensures n.kind != NodeGoal {
        InItsBucket(nodes, effective, ranked, n);
      }
    } else {
      FirstIsBest(nodes, effective, ranked, 0);
      var g := ranked[0][0];
      assert forall n :: n in nodes && n.kind == NodeGoal ==> SectionOf(n.kind) == 0;
      assert g in nodes && g.kind == NodeGoal && g.title == cp.activeGoal;
    }
  }

  lemma InItsBucket(nodes: seq<Node>, effective: Option<map<NodeID, real>>, ranked: seq<seq<Node>>, n: Node)
    requires AreRanked(nodes, effective, ranked) && n in nodes
    ensures n in ranked[SectionOf(n.kind)]
  {
    RankedCount(nodes, effective, ranked, SectionOf(n.kind), n);
    assert n in multiset(nodes);
    assert n in multiset(ranked[SectionOf(n.kind)]);
  }

  lemma FirstIsBest(nodes: seq<Node>, effective: Option<map<NodeID, real>>, ranked: seq<seq<Node>>, i: nat)
    requires AreRanked(nodes, effective, ranked) && i < SECTIONS && ranked[i] != []
    ensures ranked[i][0] in nodes && SectionOf(ranked[i][0].kind) == i
    ensures forall n :: n in nodes && SectionOf(n.kind) == i ==> ScoresAsHigh(effective, ranked[i][0], n)
  {
    RankedMember(nodes, effective, ranked, i, ranked[i][0]);
    assert IsRankedBucket(nodes, effective, ranked[i], i);
    forall n | n in nodes && SectionOf(n.kind) == i ensures ScoresAsHigh(effective, ranked[i][0], n) {
      InItsBucket(nodes, effective, ranked, n);
      var k :| 0 <= k < |ranked[i]| && ranked[i][k] == n;
      RanksAsHigh(effective, ranked[i][0], n);
    }
  }

  /** `chosen` is a selection that prefers better nodes: within a section, no node that is left out, or
      rendered less often than it was given, scores above a rendered one that costs no less. */
  ghost predicate PrefersBetter(count: Counter, effective: Option<map<NodeID, real>>, nodes: seq<Node>,
                                chosen: seq<seq<Node>>) {
    forall x, y :: x in multiset(nodes) - multiset(Flat(chosen)) && y in Flat(chosen) ==>
      (SectionOf(x.kind) == SectionOf(y.kind) && CostOf(count, x) <= CostOf(count, y) ==> ScoresAsHigh(effective, y, x))
  }

  lemma ChosenMember(cost: Cost<Node>, room: int, nodes: seq<Node>, effective: Option<map<NodeID, real>>,
                     ranked: seq<seq<Node>>, i: nat, y: Node)
    requires AreRanked(nodes, effective, ranked) && i < SECTIONS
    requires |Pick(cost, ranked, room).chosen| == SECTIONS && y in Pick(cost, ranked, room).chosen[i]
    ensures SectionOf(y.kind) == i && y in nodes
  {
    PickTakesNoMore(cost, ranked, room, i);
    assert y in multiset(Pick(cost, ranked, room).chosen[i]);
    assert y in multiset(ranked[i]);
    RankedMember(nodes, effective, ranked, i, y);
  }

  lemma {:induction false} FlatMember<T>(parts: seq<seq<T>>, x: T) returns (i: nat)
    requires x in Flat(parts)
    ensures i < |parts| && x in parts[i]
  {
    var n := |parts| - 1;
    if x in parts[n] {
      i := n;
    } else {
      i := FlatMember(parts[..n], x);
    }
  }

  /** A node that is left out of the selection is left out of its bucket. */
  lemma LeftOutOfBucket(cost: Cost<Node>, room: int, nodes: seq<Node>, effective: Option<map<NodeID, real>>,
                        ranked: seq<seq<Node>>, x: Node)
    requires AreRanked(nodes, effective, ranked)
    requires x in multiset(nodes) - multiset(Flat(Pick(cost, ranked, room).chosen))
    ensures LeftOut(cost, ranked, room, SectionOf(x.kind), x)
  {
    var i, chosen := SectionOf(x.kind), Pick(cost, ranked, room).chosen;
    RankedCount(nodes, effective, ranked, i, x);
    PickFits(cost, ranked, room);
    FlatCounts(chosen, i, x);
  }

  lemma BetterIsChosen(cost: Cost<Node>, room: int, nodes: seq<Node>, effective: Option<map<NodeID, real>>,
                       ranked: seq<seq<Node>>, x: Node, y: Node)
    requires AreRanked(nodes, effective, ranked) && NonNegative(cost, nodes) && cost(x) <= cost(y)
    requires x in multiset(nodes) - multiset(Flat(Pick(cost, ranked, room).chosen))
    requires y in Flat(Pick(cost, ranked, room).chosen) && SectionOf(x.kind) == SectionOf(y.kind)
    ensures ScoresAsHigh(effective, y, x)
  {
    RankedNonNegative(cost, nodes, effective, ranked);
    LeftOutOfBucket(cost, room, nodes, effective, ranked, x);
    PickFits(cost, ranked, room);
    var i := FlatMember(Pick(cost, ranked, room).chosen, y);
    ChosenMember(cost, room, nodes, effective, ranked, i, y);
    assert IsRankedBucket(nodes, effective, ranked[i], i);
    PickBestFirst(cost, Ranking(effective), ranked, room, i, x, y);
    RanksAsHigh(effective, y, x);
  }

  lemma SelectionPrefersBetter(count: Counter, room: int, nodes: seq<Node>, effective: Option<map<NodeID, real>>,
                               ranked: seq<seq<Node>>)
    requires AreRanked(nodes, effective, ranked) && NonNegative(Costs(count), nodes)
    ensures PrefersBetter(count, effective, nodes, Pick(Costs(count), ranked, room).chosen)
  {
    var chosen := Pick(Costs(count), ranked, room).chosen;
    forall x: Node, y: Node | x in multiset(nodes) - multiset(Flat(chosen)) && y in Flat(chosen)
      && SectionOf(x.kind) == SectionOf(y.kind) && CostOf(count, x) <= CostOf(count, y)
      ensures ScoresAsHigh(effective, y, x)
    {
      BetterIsChosen(Costs(count), room, nodes, effective, ranked, x, y);
    }
  }

  /** Every node stands in the section of its kind. */
  ghost predicate InSections(chosen: seq<seq<Node>>) {
    |chosen| == SECTIONS && forall i, y :: 0 <= i < SECTIONS && y in chosen[i] ==> SectionOf(y.kind) == i
  }

  lemma SelectionInSections(cost: Cost<Node>, room: int, nodes: seq<Node>, effective: Option<map<NodeID, real>>,
                            ranked: seq<seq<Node>>)
    requires AreRanked(nodes, effective, ranked)
    ensures InSections(Pick(cost, ranked, room).chosen)
  {
    PickFits(cost, ranked, room);
    forall i, y | 0 <= i < SECTIONS && y in Pick(cost, ranked, room).chosen[i] ensures SectionOf(y.kind) == i {
      ChosenMember(cost, room, nodes, effective, ranked, i, y);
    }
  }

  lemma CostsNonNegative(count: Counter, nodes: seq<Node>)
    requires forall n :: n in nodes ==> n.tokens >= 0
    ensures NonNegative(Costs(count), nodes)
  {
  }

  /** Every compiled prompt is the text of a selection of the given nodes that prefers better ones. */
  lemma BetterAreRendered(c: Compiler, systemPrompt: string, userMessage: string, nodes: seq<Node>,
                          effective: Option<map<NodeID, real>>, cp: CompiledPrompt)
    returns (chosen: seq<seq<Node>>)
    requires IsCompiled(c, systemPrompt, userMessage, nodes, effective, cp) && forall n :: n in nodes ==> n.tokens >= 0
    ensures cp.finalPrompt == FinalPrompt(c.stable, chosen) && multiset(Flat(chosen)) <= multiset(nodes)
    ensures InSections(chosen) && PrefersBetter(c.count, effective, nodes, chosen)
  {
    var ranked: seq<seq<Node>> :|
      AreRanked(nodes, effective, ranked) && cp == Compiled(c, systemPrompt, userMessage, nodes, ranked);
    chosen := SelectionFor(c, systemPrompt, userMessage, ranked).chosen;
    TextOfSelection(c, systemPrompt, userMessage, nodes, ranked);
    CompilerChoosesBest(c, systemPrompt, userMessage, nodes, effective, ranked, chosen);
  }

  lemma CompilerChoosesBest(c: Compiler, systemPrompt: string, userMessage: string, nodes: seq<Node>,
                            effective: Option<map<NodeID, real>>, ranked: seq<seq<Node>>, chosen: seq<seq<Node>>)
    requires AreRanked(nodes, effective, ranked) && forall n :: n in nodes ==> n.tokens >= 0
    requires chosen == SelectionFor(c, systemPrompt, userMessage, ranked).chosen
    ensures multiset(Flat(chosen)) <= multiset(nodes)
    ensures InSections(chosen) && PrefersBetter(c.count, effective, nodes, chosen)
  {
    SelectionIsBest(c.count, c.budget - Reserve(c.count, systemPrompt, userMessage), nodes, effective, ranked, chosen);
  }

  lemma TextOfSelection(c: Compiler, systemPrompt: string, userMessage: string, nodes: seq<Node>,
                        ranked: seq<seq<Node>>)
    requires |ranked| == SECTIONS
    ensures Compiled(c, systemPrompt, userMessage, nodes, ranked).finalPrompt
         == FinalPrompt(c.stable, SelectionFor(c, systemPrompt, userMessage, ranked).chosen)
  {
  }

  lemma SelectionIsBest(count: Counter, room: int, nodes: seq<Node>, effective: Option<map<NodeID, real>>,
                        ranked: seq<seq<Node>>, chosen: seq<seq<Node>>)
    requires AreRanked(nodes, effective, ranked) && forall n :: n in nodes ==> n.tokens >= 0
    requires chosen == Pick(Costs(count), ranked, room).chosen
    ensures multiset(Flat(chosen)) <= multiset(nodes)
    ensures InSections(chosen) && PrefersBetter(count, effective, nodes, chosen)
  {
    CostsNonNegative(count, nodes);
    WithinRoom(Costs(count), room, nodes, effective, ranked);
    SelectionInSections(Costs(count), room, nodes, effective, ranked);
    SelectionPrefersBetter(count, room, nodes, effective, ranked);
  }

  // ---------------------------------------------------------------- earlier sections first

  lemma {:induction false} PickPrefix<T>(cost: Cost<T>, buckets: seq<seq<T>>, budget: int, k: nat)
    requires k <= |buckets|
    ensures |Pick(cost, buckets, budget).chosen| == |buckets|
    ensures Pick(cost, buckets, budget).chosen[..k] == Pick(cost, buckets[..k], budget).chosen
    decreases |buckets|
  {
    PickFits(cost, buckets, budget);
    if k == |buckets| {
      assert buckets[..k] == buckets;
    } else {
      var front := buckets[..|buckets| - 1];
      PickFits(cost, front, budget);
      PickPrefix(cost, front, budget, k);
      PickLast(cost, buckets, budget);
      PrefixOfPrefix(buckets, k, |front|);
      PrefixOfPrefix(Pick(cost, buckets, budget).chosen, k, |front|);
    }
  }

  lemma PrefixOfPrefix<T>(s: seq<T>, k: nat, n: nat)
    requires k <= n <= |s|
    ensures s[..n][..k] == s[..k]
  {
  }

  lemma {:induction false} TotalOfSplit<T>(cost: Cost<T>, parts: seq<seq<T>>, k: nat)
    requires k <= |parts|
    ensures TotalOf(cost, parts) == TotalOf(cost, parts[..k]) + TotalOf(cost, parts[k..])
    decreases |parts|
  {
    if k == |parts| {
      assert parts[..k] == parts;
    } else {
      var front := parts[..|parts| - 1];
      TotalOfSplit(cost, front, k);
      assert front[..k] == parts[..k];
      assert parts[k..][..|parts[k..]| - 1] == front[k..];
    }
  }

  /** What the first `k` buckets leave is what the later ones may cost together. */
  lemma LaterFitTheRest<T>(cost: Cost<T>, buckets: seq<seq<T>>, budget: int, k: nat)
    requires k <= |buckets|
    ensures |Pick(cost, buckets, budget).chosen| == |buckets|
    ensures TotalOf(cost, Pick(cost, buckets, budget).chosen[k..]) <= Max(Pick(cost, buckets[..k], budget).left, 0)
  {
    PickPrefix(cost, buckets, budget, k);
    PickFits(cost, buckets, budget);
    PickFits(cost, buckets[..k], budget);
    TotalOfSplit(cost, Pick(cost, buckets, budget).chosen, k);
  }

  lemma LeftOutOfPrefix<T>(cost: Cost<T>, buckets: seq<seq<T>>, budget: int, i: nat, x: T)
    requires LeftOut(cost, buckets, budget, i, x) && AllNonNegative(cost, buckets) && cost(x) > 0
    ensures cost(x) > Pick(cost, buckets[..i + 1], budget).left
  {
    var front := buckets[..i + 1];
    PickPrefix(cost, buckets, budget, i + 1);
    PickFits(cost, front, budget);
    assert Pick(cost, buckets, budget).chosen[..i + 1][i] == Pick(cost, buckets, budget).chosen[i];
    assert front[i] == buckets[i];
    forall k | 0 <= k < |front| ensures NonNegative(cost, front[k]) {
      assert front[k] == buckets[k];
    }
    PickIsMaximal(cost, front, budget, i, x);
  }

  /** Sections come in the order of their priority: all nodes rendered in later sections together cost
      less than any node of positive cost that was left out of an earlier one. */
  lemma LaterSectionsCostLess(cost: Cost<Node>, room: int, nodes: seq<Node>, effective: Option<map<NodeID, real>>,
                              ranked: seq<seq<Node>>, x: Node)
    requires AreRanked(nodes, effective, ranked) && NonNegative(cost, nodes) && cost(x) > 0
    requires x in multiset(nodes) - multiset(Flat(Pick(cost, ranked, room).chosen))
    ensures |Pick(cost, ranked, room).chosen| == SECTIONS
    ensures TotalOf(cost, Pick(cost, ranked, room).chosen[SectionOf(x.kind) + 1..]) < cost(x)
  {
    RankedNonNegative(cost, nodes, effective, ranked);
    LeftOutOfBucket(cost, room, nodes, effective, ranked, x);
    LeftOutCostsMore(cost, ranked, room, SectionOf(x.kind), x);
  }

  lemma LeftOutCostsMore<T>(cost: Cost<T>, buckets: seq<seq<T>>, budget: int, i: nat, x: T)
    requires LeftOut(cost, buckets, budget, i, x) && AllNonNegative(cost, buckets) && cost(x) > 0
    ensures |Pick(cost, buckets, budget).chosen| == |buckets|
    ensures TotalOf(cost, Pick(cost, buckets, budget).chosen[i + 1..]) < cost(x)
  {
    LeftOutOfPrefix(cost, buckets, budget, i, x);
    LaterFitTheRest(cost, buckets, budget, i + 1);
  }

  // ---------------------------------------------------------------- the text

  lemma {:induction false} LinesArePart(nodes: seq<Node>, n: Node)
    requires n in nodes
    ensures IsPart(NodeText(n), NodeTexts(nodes))
  {
    var front, last := nodes[..|nodes| - 1], nodes[|nodes| - 1];
    if n != last {
      LinesArePart(front, n);
    }
    SumOfParts(NodeText(n), NodeTexts(front), NodeText(last));
  }

  lemma {:induction false} SectionIsListed(stable: bool, chosen: seq<seq<Node>>, i: nat) returns (k: nat)
    requires i < |chosen| && chosen[i] != []
    ensures k < |SectionTexts(stable, chosen)|
    ensures SectionTexts(stable, chosen)[k] == SectionText(Label(i), InRenderOrder(stable, chosen[i]))
    decreases |chosen|
  {
    var n := |chosen| - 1;
    if i == n {
      k := |SectionTexts(stable, chosen[..n])|;
    } else {
      k := SectionIsListed(stable, chosen[..n], i);
    }
  }

  /** The heading for a kind of node. */
  function HeadingFor(kind: NodeType): string {
    match kind
    case NodeGoal => "Active Goals"
    case NodeConstraint => "Constraints"
    case NodeDecision => "Key Decisions"
    case NodeCompressedBranch => "Prior Context"
    case NodeSummary => "Prior Context"
    case NodeToolResult => "Tool Outputs"
    case NodeIssue => "Open Issues"
    case NodeAttempt => "Additional Context"
    case NodeBackground => "Additional Context"
  }

  lemma HeadingIs(kind: NodeType)
    ensures Label(SectionOf(kind)) == HeadingFor(kind)
  {
  }

  lemma SameInRenderOrder(stable: bool, selected: seq<Node>, y: Node)
    requires y in selected
    ensures y in InRenderOrder(stable, selected)
  {
    ArrangedMembers(RenderOrder(), selected);
    assert y in multiset(selected);
    assert stable ==> y in multiset(InRenderOrder(stable, selected));
  }

  /** Every selected node can be read in the prompt: its lines stand in the section of its kind, under
      the heading for that kind. */
  lemma SelectedIsRead(stable: bool, chosen: seq<seq<Node>>, i: nat, y: Node) returns (section: string)
    requires InSections(chosen) && i < SECTIONS && y in chosen[i]
    ensures IsPart(section, FinalPrompt(stable, chosen)) && IsPart(NodeText(y), section)
    ensures "## " + HeadingFor(y.kind) + "\n" <= section
  {
    var rendered := InRenderOrder(stable, chosen[i]);
    var head := "## " + Label(i) + "\n";
    section := SectionText(Label(i), rendered);
    HeadingIs(y.kind);
    SameInRenderOrder(stable, chosen[i], y);
    LinesArePart(rendered, y);
    PartOfPart(NodeText(y), NodeTexts(rendered), head, "");
    assert head + NodeTexts(rendered) + "" == section;
    var k := SectionIsListed(stable, chosen, i);
    JoinedIsPart(SectionTexts(stable, chosen), SEPARATOR, k);
  }
}
