/** When a compiled prompt stays within its budget, under the fallback counter. */
module PromptBudget {
  import opened Collections
  import opened Domain
  import opened Selection
  import opened PromptCompiler
  import opened PromptLaws

  // ---------------------------------------------------------------- the exact condition

  function Separators(sections: nat): nat {
    if sections == 0 then 0 else (sections - 1) * 7
  }

  lemma QuarterIff(size: nat, room: int)
    ensures size / 4 <= room <==> size <= 4 * room + 3
  {
  }

  /** The prompt is within its budget exactly if the headings, lines and separators of what was selected
      fit into four characters for every token that the reserve leaves, and three more. */
  lemma WithinBudgetIff(c: Compiler, systemPrompt: string, userMessage: string, nodes: seq<Node>,
                        buckets: seq<seq<Node>>, chosen: seq<seq<Node>>)
    requires c.count == Quarter() && |buckets| == SECTIONS
    requires chosen == SelectionFor(c, systemPrompt, userMessage, buckets).chosen
    ensures Compiled(c, systemPrompt, userMessage, nodes, buckets).compiledTokens <= c.budget
      <==> HeadingSizes(chosen) + TotalOf(TextSize(), chosen) + Separators(SectionCount(chosen))
             <= 4 * (c.budget - Reserve(Quarter(), systemPrompt, userMessage)) + 3
  {
    CompiledIs(c, systemPrompt, userMessage, nodes, buckets, chosen);
    PromptSize(c.stable, chosen);
    QuarterIff(|FinalPrompt(c.stable, chosen)|, c.budget - Reserve(Quarter(), systemPrompt, userMessage));
  }

  // ---------------------------------------------------------------- read off the given nodes

  predicate Occurs(nodes: seq<Node>, i: nat) {
    exists n :: n in nodes && SectionOf(n.kind) == i
  }

  /** How many of the first `k` sections have a node. */
  function SectionsOf(nodes: seq<Node>, k: nat): nat {
    if k == 0 then 0 else SectionsOf(nodes, k - 1) + if Occurs(nodes, k - 1) then 1 else 0
  }

  function HeadingsOf(nodes: seq<Node>, k: nat): nat {
    if k == 0 then 0 else HeadingsOf(nodes, k - 1) + if Occurs(nodes, k - 1) then 4 + |Label(k - 1)| else 0
  }

  /** The length of the text with all nodes in it. */
  function SizeOfAll(nodes: seq<Node>): int {
    HeadingsOf(nodes, SECTIONS) + Total(TextSize(), nodes) + Separators(SectionsOf(nodes, SECTIONS))
  }

  lemma OccursIff(nodes: seq<Node>, effective: Option<map<NodeID, real>>, buckets: seq<seq<Node>>, i: nat)
    requires AreRanked(nodes, effective, buckets) && i < SECTIONS
    ensures Occurs(nodes, i) <==> buckets[i] != []
  {
    if buckets[i] != [] {
      RankedMember(nodes, effective, buckets, i, buckets[i][0]);
    }
    if Occurs(nodes, i) {
      var n :| n in nodes && SectionOf(n.kind) == i;
      RankedCount(nodes, effective, buckets, i, n);
      assert n in multiset(nodes);
      assert n in multiset(buckets[i]);
    }
  }

  lemma {:induction false} RankedSections(nodes: seq<Node>, effective: Option<map<NodeID, real>>,
                                          buckets: seq<seq<Node>>, k: nat)
    requires AreRanked(nodes, effective, buckets) && k <= SECTIONS
    ensures SectionCount(buckets[..k]) == SectionsOf(nodes, k) && HeadingSizes(buckets[..k]) == HeadingsOf(nodes, k)
  {
    if k > 0 {
      RankedSections(nodes, effective, buckets, k - 1);
      OccursIff(nodes, effective, buckets, k - 1);
      assert buckets[..k][..k - 1] == buckets[..k - 1];
    }
  }

  /** The parts of the text when every node is selected. */
  lemma SizesOfAll(nodes: seq<Node>, effective: Option<map<NodeID, real>>, buckets: seq<seq<Node>>)
    requires AreRanked(nodes, effective, buckets)
    ensures SectionCount(buckets) == SectionsOf(nodes, SECTIONS) && HeadingSizes(buckets) == HeadingsOf(nodes, SECTIONS)
    ensures TotalOf(TextSize(), buckets) == Total(TextSize(), nodes) && |Flat(buckets)| == |nodes|
  {
    RankedSections(nodes, effective, buckets, SECTIONS);
    assert buckets[..SECTIONS] == buckets;
    BucketsPartition(nodes, effective, buckets);
    TotalOfFlat(TextSize(), buckets);
    TotalForgetsOrder(TextSize(), Flat(buckets), nodes);
    Sorting.SameMembers(Flat(buckets), nodes);
  }

  /** The number of sections can be read off the nodes. */
  lemma SectionsOfAll(nodes: seq<Node>, effective: Option<map<NodeID, real>>, buckets: seq<seq<Node>>)
    requires AreRanked(nodes, effective, buckets)
    ensures SectionCount(buckets) == SectionsOf(nodes, SECTIONS)
  {
    SizesOfAll(nodes, effective, buckets);
  }

  lemma CostsAreNonNegative(count: Counter, nodes: seq<Node>)
    requires forall n :: n in nodes ==> n.tokens >= 0
    ensures NonNegative(Costs(count), nodes)
  {
  }

  lemma SelectionIs(c: Compiler, systemPrompt: string, userMessage: string, buckets: seq<seq<Node>>, room: int)
    requires c.count == Quarter() && room == c.budget - Reserve(Quarter(), systemPrompt, userMessage)
    ensures SelectionFor(c, systemPrompt, userMessage, buckets) == Pick(Costs(Quarter()), buckets, room)
  {
  }

  /** With room to spare the selection is everything. */
  lemma AllChosen(c: Compiler, systemPrompt: string, userMessage: string, nodes: seq<Node>,
                  effective: Option<map<NodeID, real>>, buckets: seq<seq<Node>>)
    requires c.count == Quarter() && AreRanked(nodes, effective, buckets) && forall n :: n in nodes ==> n.tokens >= 0
    requires Total(Costs(Quarter()), nodes) < c.budget - Reserve(Quarter(), systemPrompt, userMessage)
    ensures SelectionFor(c, systemPrompt, userMessage, buckets).chosen == buckets
  {
    var room := c.budget - Reserve(Quarter(), systemPrompt, userMessage);
    CostsAreNonNegative(Quarter(), nodes);
    SelectionIs(c, systemPrompt, userMessage, buckets, room);
    RoomForEverything(Costs(Quarter()), room, nodes, effective, buckets);
  }

  /** When the nodes together cost less than the room there is, whether the prompt stays within its
      budget can be read off the nodes. */
  lemma FittingWithinBudgetIff(c: Compiler, systemPrompt: string, userMessage: string, nodes: seq<Node>,
                               effective: Option<map<NodeID, real>>, buckets: seq<seq<Node>>)
    requires c.count == Quarter() && AreRanked(nodes, effective, buckets) && forall n :: n in nodes ==> n.tokens >= 0
    requires Total(Costs(Quarter()), nodes) < c.budget - Reserve(Quarter(), systemPrompt, userMessage)
    ensures Compiled(c, systemPrompt, userMessage, nodes, buckets).compiledTokens <= c.budget
      <==> SizeOfAll(nodes) <= 4 * (c.budget - Reserve(Quarter(), systemPrompt, userMessage)) + 3
  {
    AllChosen(c, systemPrompt, userMessage, nodes, effective, buckets);
    WithinBudgetIff(c, systemPrompt, userMessage, nodes, buckets, buckets);
    SizesOfAll(nodes, effective, buckets);
  }

  // ---------------------------------------------------------------- headroom

  lemma PricedTaken(nodes: seq<Node>, taken: seq<Node>)
    requires multiset(taken) == multiset(nodes) && forall n :: n in nodes ==> WellPriced(n)
    ensures forall n :: n in taken ==> WellPriced(n)
  {
    Sorting.SameMembers(taken, nodes);
  }

  /** The length of the text, for buckets that hold exactly the given nodes. */
  lemma AllTextSize(stable: bool, nodes: seq<Node>, buckets: seq<seq<Node>>, size: nat, cost: int)
    requires multiset(Flat(buckets)) == multiset(nodes) && forall n :: n in nodes ==> WellPriced(n)
    requires size == |FinalPrompt(stable, buckets)| && cost == Total(Costs(Quarter()), nodes)
    ensures size <= 4 * cost + 36 * |nodes| + 32 * SectionCount(buckets)
  {
    PricedTaken(nodes, Flat(buckets));
    PromptBound(stable, buckets);
    TotalForgetsOrder(Costs(Quarter()), Flat(buckets), nodes);
    Sorting.SameMembers(Flat(buckets), nodes);
  }

  lemma AllTextBound(stable: bool, nodes: seq<Node>, effective: Option<map<NodeID, real>>, buckets: seq<seq<Node>>,
                     size: nat, cost: int)
    requires AreRanked(nodes, effective, buckets) && forall n :: n in nodes ==> WellPriced(n)
    requires size == |FinalPrompt(stable, buckets)| && cost == Total(Costs(Quarter()), nodes)
    ensures size / 4 <= cost + 9 * |nodes| + 8 * SectionCount(buckets)
  {
    BucketsPartition(nodes, effective, buckets);
    AllTextSize(stable, nodes, buckets, size, cost);
    QuarterBound(size, cost, |nodes|, SectionCount(buckets));
  }

  lemma NoNodesNoText(c: Compiler, systemPrompt: string, userMessage: string, nodes: seq<Node>,
                      effective: Option<map<NodeID, real>>, buckets: seq<seq<Node>>, chosen: seq<seq<Node>>)
    requires AreRanked(nodes, effective, buckets) && nodes == []
    requires chosen == SelectionFor(c, systemPrompt, userMessage, buckets).chosen
    ensures FinalPrompt(c.stable, chosen) == ""
  {
    var room := c.budget - Reserve(c.count, systemPrompt, userMessage);
    PickFits(Costs(c.count), buckets, room);
    forall i | 0 <= i < |chosen| ensures chosen[i] == [] {
      PickTakesNoMore(Costs(c.count), buckets, room, i);
      OccursIff(nodes, effective, buckets, i);
      assert |multiset(chosen[i])| == 0;
    }
    EmptySections(c.stable, chosen);
  }

  lemma {:induction false} EmptySections(stable: bool, chosen: seq<seq<Node>>)
    requires forall i :: 0 <= i < |chosen| ==> chosen[i] == []
    ensures SectionTexts(stable, chosen) == []
  {
    if chosen != [] {
      EmptySections(stable, chosen[..|chosen| - 1]);
    }
  }

  lemma TokensOfAll(c: Compiler, systemPrompt: string, userMessage: string, nodes: seq<Node>,
                    effective: Option<map<NodeID, real>>, buckets: seq<seq<Node>>, reserve: int)
    requires c.count == Quarter() && AreRanked(nodes, effective, buckets) && forall n :: n in nodes ==> n.tokens >= 0
    requires reserve == Reserve(Quarter(), systemPrompt, userMessage)
    requires Total(Costs(Quarter()), nodes) < c.budget - reserve
    ensures Compiled(c, systemPrompt, userMessage, nodes, buckets).compiledTokens
         == reserve + |FinalPrompt(c.stable, buckets)| / 4
  {
    AllChosen(c, systemPrompt, userMessage, nodes, effective, buckets);
    CompiledIs(c, systemPrompt, userMessage, nodes, buckets, buckets);
  }

  lemma HeadroomWithNodes(c: Compiler, systemPrompt: string, userMessage: string, nodes: seq<Node>,
                          effective: Option<map<NodeID, real>>, buckets: seq<seq<Node>>, cost: int, reserve: int)
    requires c.count == Quarter() && AreRanked(nodes, effective, buckets) && forall n :: n in nodes ==> WellPriced(n)
    requires cost == Total(Costs(Quarter()), nodes) && reserve == Reserve(Quarter(), systemPrompt, userMessage)
    requires nodes != [] && cost + reserve + 9 * |nodes| + 8 * SectionCount(buckets) <= c.budget
    ensures Compiled(c, systemPrompt, userMessage, nodes, buckets).compiledTokens <= c.budget
  {
    TokensOfAll(c, systemPrompt, userMessage, nodes, effective, buckets, reserve);
    AllTextBound(c.stable, nodes, effective, buckets, |FinalPrompt(c.stable, buckets)|, cost);
  }

  lemma HeadroomWithoutNodes(c: Compiler, systemPrompt: string, userMessage: string, nodes: seq<Node>,
                             effective: Option<map<NodeID, real>>, buckets: seq<seq<Node>>, reserve: int)
    requires c.count == Quarter() && AreRanked(nodes, effective, buckets) && nodes == []
    requires reserve == Reserve(Quarter(), systemPrompt, userMessage) <= c.budget
    ensures Compiled(c, systemPrompt, userMessage, nodes, buckets).compiledTokens <= c.budget
  {
    var chosen := SelectionFor(c, systemPrompt, userMessage, buckets).chosen;
    CompiledIs(c, systemPrompt, userMessage, nodes, buckets, chosen);
    NoNodesNoText(c, systemPrompt, userMessage, nodes, effective, buckets, chosen);
  }

  /** Nine tokens of headroom for every node and eight for every section that has one are enough. */
  lemma HeadroomSuffices(c: Compiler, systemPrompt: string, userMessage: string, nodes: seq<Node>,
                         effective: Option<map<NodeID, real>>, buckets: seq<seq<Node>>, cost: int, reserve: int)
    requires c.count == Quarter() && AreRanked(nodes, effective, buckets) && forall n :: n in nodes ==> WellPriced(n)
    requires cost == Total(Costs(Quarter()), nodes) && reserve == Reserve(Quarter(), systemPrompt, userMessage)
    requires cost + reserve + 9 * |nodes| + 8 * SectionCount(buckets) <= c.budget
    ensures Compiled(c, systemPrompt, userMessage, nodes, buckets).compiledTokens <= c.budget
  {
    if nodes == [] {
      HeadroomWithoutNodes(c, systemPrompt, userMessage, nodes, effective, buckets, reserve);
    } else {
      HeadroomWithNodes(c, systemPrompt, userMessage, nodes, effective, buckets, cost, reserve);
    }
  }
}
