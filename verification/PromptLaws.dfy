/** What the compiled prompt promises: the budget, maximality, one rendering per node, and a text that
    does not depend on the order in which nodes arrive. */
module PromptLaws {
  import opened Collections
  import opened Domain
  import opened Text
  import opened Sorting
  import opened Selection
  import opened PromptCompiler

  // ---------------------------------------------------------------- the buckets hold the nodes

  lemma {:induction false} BucketCount(nodes: seq<Node>, i: nat, x: Node)
    ensures multiset(Bucket(nodes, i))[x] == if SectionOf(x.kind) == i then multiset(nodes)[x] else 0
  {
    if nodes != [] {
      BucketCount(nodes[..|nodes| - 1], i, x);
      assert nodes == nodes[..|nodes| - 1] + [nodes[|nodes| - 1]];
    }
  }

  lemma RankedCount(nodes: seq<Node>, effective: Option<map<NodeID, real>>, buckets: seq<seq<Node>>, i: nat, x: Node)
    requires AreRanked(nodes, effective, buckets) && i < SECTIONS
    ensures multiset(buckets[i])[x] == if SectionOf(x.kind) == i then multiset(nodes)[x] else 0
  {
    assert IsRankedBucket(nodes, effective, buckets[i], i);
    BucketCount(nodes, i, x);
  }

  lemma FlatStep(buckets: seq<seq<Node>>, i: nat, x: Node)
    requires i < |buckets|
    ensures multiset(Flat(buckets[..i + 1]))[x] == multiset(Flat(buckets[..i]))[x] + multiset(buckets[i])[x]
  {
    assert buckets[..i + 1][..i] == buckets[..i];
  }

  lemma {:induction false} PrefixCount(nodes: seq<Node>, effective: Option<map<NodeID, real>>,
                                       buckets: seq<seq<Node>>, k: nat, x: Node)
    requires AreRanked(nodes, effective, buckets) && k <= SECTIONS
    ensures multiset(Flat(buckets[..k]))[x] == if SectionOf(x.kind) < k then multiset(nodes)[x] else 0
  {
    if k > 0 {
      PrefixCount(nodes, effective, buckets, k - 1, x);
      RankedCount(nodes, effective, buckets, k - 1, x);
      FlatStep(buckets, k - 1, x);
    }
  }

  /** Every node is in exactly one bucket. */
  lemma BucketsPartition(nodes: seq<Node>, effective: Option<map<NodeID, real>>, buckets: seq<seq<Node>>)
    requires AreRanked(nodes, effective, buckets)
    ensures multiset(Flat(buckets)) == multiset(nodes)
  {
    assert buckets[..SECTIONS] == buckets;
    forall x ensures multiset(Flat(buckets))[x] == multiset(nodes)[x] {
      PrefixCount(nodes, effective, buckets, SECTIONS, x);
    }
  }

  lemma RankedMember(nodes: seq<Node>, effective: Option<map<NodeID, real>>, buckets: seq<seq<Node>>, i: nat, x: Node)
    requires AreRanked(nodes, effective, buckets) && i < SECTIONS && x in buckets[i]
    ensures x in nodes && SectionOf(x.kind) == i
  {
    RankedCount(nodes, effective, buckets, i, x);
    assert x in multiset(buckets[i]);
    assert x in multiset(nodes);
  }

  // ---------------------------------------------------------------- budget, uniqueness, maximality

  /** The cost of what is selected stays within the room, and no node is rendered more often than it
      was given. */
  lemma WithinRoom(cost: Cost<Node>, room: int, nodes: seq<Node>, effective: Option<map<NodeID, real>>,
                   buckets: seq<seq<Node>>)
    requires AreRanked(nodes, effective, buckets)
    ensures var p := Pick(cost, buckets, room);
      && Total(cost, Flat(p.chosen)) <= Max(room, 0) && p.left == room - Total(cost, Flat(p.chosen))
      && multiset(Flat(p.chosen)) <= multiset(nodes)
  {
    var p := Pick(cost, buckets, room);
    PickFits(cost, buckets, room);
    TotalOfFlat(cost, p.chosen);
    forall i | 0 <= i < |buckets| ensures multiset(p.chosen[i]) <= multiset(buckets[i]) {
      PickTakesNoMore(cost, buckets, room, i);
    }
    FlatBelow(p.chosen, buckets);
    BucketsPartition(nodes, effective, buckets);
  }

  /** Nodes with distinct ids are rendered at most once. */
  lemma RenderedOnce(cost: Cost<Node>, room: int, nodes: seq<Node>, effective: Option<map<NodeID, real>>,
                     buckets: seq<seq<Node>>)
    requires AreRanked(nodes, effective, buckets) && NoDup(Ids(nodes))
    ensures var taken := Flat(Pick(cost, buckets, room).chosen);
      NoDup(Ids(taken)) && forall n :: n in taken ==> n in nodes
  {
    WithinRoom(cost, room, nodes, effective, buckets);
    DistinctTaken(nodes, Flat(Pick(cost, buckets, room).chosen));
  }

  lemma DistinctTaken(nodes: seq<Node>, taken: seq<Node>)
    requires NoDup(Ids(nodes)) && multiset(taken) <= multiset(nodes)
    ensures NoDup(Ids(taken)) && forall n :: n in taken ==> n in nodes
  {
    forall n | n in taken ensures n in nodes {
      assert n in multiset(taken);
      assert n in multiset(nodes);
    }
    forall i, j | 0 <= i < j < |taken| ensures taken[i].id != taken[j].id {
      if taken[i].id == taken[j].id {
        SameIdSameNode(nodes, taken[i], taken[j]);
        TwiceInSequence(taken, i, j);
        NoDupNodes(nodes);
        NoDupCount(nodes, taken[i]);
        assert false;
      }
    }
  }

  lemma NoDupNodes(nodes: seq<Node>)
    requires NoDup(Ids(nodes))
    ensures NoDup(nodes)
  {
    forall i, j | 0 <= i < j < |nodes| ensures nodes[i] != nodes[j] {
      assert Ids(nodes)[i] != Ids(nodes)[j];
    }
  }

  lemma SameIdSameNode(nodes: seq<Node>, m: Node, n: Node)
    requires NoDup(Ids(nodes)) && m in nodes && n in nodes && m.id == n.id
    ensures m == n
  {
    var i :| 0 <= i < |nodes| && nodes[i] == m;
    var j :| 0 <= j < |nodes| && nodes[j] == n;
    assert Ids(nodes)[i] == Ids(nodes)[j];
  }

  lemma TwiceInSequence<T>(s: seq<T>, i: nat, j: nat)
    requires i < j < |s| && s[i] == s[j]
    ensures multiset(s)[s[i]] >= 2
  {
    assert s == s[..i] + [s[i]] + s[i + 1..j] + [s[j]] + s[j + 1..];
  }

  lemma RankedNonNegative(cost: Cost<Node>, nodes: seq<Node>, effective: Option<map<NodeID, real>>,
                          buckets: seq<seq<Node>>)
    requires AreRanked(nodes, effective, buckets) && NonNegative(cost, nodes)
    ensures AllNonNegative(cost, buckets)
  {
    forall i, x | 0 <= i < |buckets| && x in buckets[i] ensures cost(x) >= 0 {
      RankedMember(nodes, effective, buckets, i, x);
    }
  }

  /** A node that is not rendered, or not as often as it was given, costs more than what is left of the
      room in the end. */
  lemma NothingMoreFits(cost: Cost<Node>, room: int, nodes: seq<Node>, effective: Option<map<NodeID, real>>,
                        buckets: seq<seq<Node>>, x: Node)
    requires AreRanked(nodes, effective, buckets) && NonNegative(cost, nodes)
    requires x in multiset(nodes) - multiset(Flat(Pick(cost, buckets, room).chosen)) && cost(x) > 0
    ensures cost(x) > Pick(cost, buckets, room).left
  {
    var i, chosen := SectionOf(x.kind), Pick(cost, buckets, room).chosen;
    RankedCount(nodes, effective, buckets, i, x);
    RankedNonNegative(cost, nodes, effective, buckets);
    PickFits(cost, buckets, room);
    FlatCounts(chosen, i, x);
    assert x in multiset(buckets[i]) - multiset(chosen[i]);
    assert LeftOut(cost, buckets, room, i, x);
    PickIsMaximal(cost, buckets, room, i, x);
  }

  /** All nodes are selected exactly if all of them fit. */
  lemma AllSelectedIff(cost: Cost<Node>, room: int, nodes: seq<Node>, effective: Option<map<NodeID, real>>,
                       buckets: seq<seq<Node>>)
    requires AreRanked(nodes, effective, buckets) && NonNegative(cost, nodes)
    ensures Pick(cost, buckets, room).chosen == buckets <==> AllFit(cost, buckets, room)
  {
    RankedNonNegative(cost, nodes, effective, buckets);
    PickAllIff(cost, buckets, room);
  }

  lemma {:induction false} PrefixTotal(cost: Cost<Node>, buckets: seq<seq<Node>>, k: nat)
    requires AllNonNegative(cost, buckets) && k <= |buckets|
    ensures TotalOf(cost, buckets[..k]) <= TotalOf(cost, buckets)
    decreases |buckets|
  {
    if k == |buckets| {
      assert buckets[..k] == buckets;
    } else {
      FrontNonNegative(cost, buckets);
      PrefixTotal(cost, buckets[..|buckets| - 1], k);
      assert buckets[..|buckets| - 1][..k] == buckets[..k];
      TotalNonNegative(cost, buckets[|buckets| - 1]);
    }
  }

  lemma AllFitIfSmall(cost: Cost<Node>, room: int, buckets: seq<seq<Node>>)
    requires AllNonNegative(cost, buckets) && TotalOf(cost, buckets) < room
    ensures AllFit(cost, buckets, room)
  {
    forall i | 0 <= i < |buckets| ensures FitsAt(cost, buckets, room, i) {
      PrefixTotal(cost, buckets, i);
      PrefixTotal(cost, buckets, i + 1);
    }
  }

  /** It is enough that all nodes together cost less than the room there is. */
  lemma RoomForEverything(cost: Cost<Node>, room: int, nodes: seq<Node>, effective: Option<map<NodeID, real>>,
                          buckets: seq<seq<Node>>)
    requires AreRanked(nodes, effective, buckets) && NonNegative(cost, nodes) && Total(cost, nodes) < room
    ensures AllFit(cost, buckets, room) && Pick(cost, buckets, room).chosen == buckets
    ensures multiset(Flat(Pick(cost, buckets, room).chosen)) == multiset(nodes)
  {
    RankedNonNegative(cost, nodes, effective, buckets);
    BucketsPartition(nodes, effective, buckets);
    TotalForgetsOrder(cost, Flat(buckets), nodes);
    TotalOfFlat(cost, buckets);
    AllFitIfSmall(cost, room, buckets);
    PickAllIff(cost, buckets, room);
  }

  // ---------------------------------------------------------------- cache-stable rendering

  /** A node is known by its id. */
  ghost predicate IdsDecide(nodes: seq<Node>) {
    forall m, n :: m in nodes && n in nodes && m.id == n.id ==> m == n
  }

  lemma RenderOrderIsStrict()
    ensures StrictWeak(RenderOrder())
  {
    forall x: Node, y: Node ensures RenderOrder()(x, y) ==> !RenderOrder()(y, x) {
      LexOneWay(Render(x.id), Render(y.id));
    }
    forall x: Node, y: Node, z: Node ensures RenderOrder()(x, z) ==> RenderOrder()(x, y) || RenderOrder()(y, z) {
      LexSplits(Render(x.id), Render(y.id), Render(z.id));
    }
  }

  lemma RenderOrderSeparates(nodes: seq<Node>)
    requires IdsDecide(nodes)
    ensures Separates(RenderOrder(), nodes)
  {
    forall x, y | x in nodes && y in nodes && x != y ensures RenderOrder()(x, y) <==> !RenderOrder()(y, x) {
      LexOneWay(Render(x.id), Render(y.id));
      if Render(x.id) == Render(y.id) {
        RenderInjective(x.id, y.id);
        assert false;
      }
    }
  }

  /** Nodes with distinct ids are rendered in one order, whatever order they come in. */
  lemma StableOrderIsUnique(a: seq<Node>, b: seq<Node>)
    requires IdsDecide(a) && multiset(a) == multiset(b)
    ensures InRenderOrder(true, a) == InRenderOrder(true, b)
  {
    RenderOrderIsStrict();
    RenderOrderSeparates(a);
    ArrangedForgetsOrder(RenderOrder(), a, b);
  }

  lemma {:induction false} StableSectionsAgree(a: seq<seq<Node>>, b: seq<seq<Node>>)
    requires SameItems(a, b) && forall i :: 0 <= i < |a| ==> IdsDecide(a[i])
    ensures SectionTexts(true, a) == SectionTexts(true, b)
  {
    if a != [] {
      var n := |a| - 1;
      StableSectionsAgree(a[..n], b[..n]);
      StableOrderIsUnique(a[n], b[n]);
      assert |multiset(a[n])| == |a[n]| && |multiset(b[n])| == |b[n]|;
    }
  }

  lemma TakenIdsDecide(cost: Cost<Node>, room: int, nodes: seq<Node>, effective: Option<map<NodeID, real>>,
                       buckets: seq<seq<Node>>, i: nat)
    requires AreRanked(nodes, effective, buckets) && IdsDecide(nodes) && i < SECTIONS
    ensures i < |Pick(cost, buckets, room).chosen| && IdsDecide(Pick(cost, buckets, room).chosen[i])
  {
    PickTakesNoMore(cost, buckets, room, i);
    var chosen := Pick(cost, buckets, room).chosen[i];
    forall x | x in chosen ensures x in nodes {
      assert x in multiset(chosen);
      assert x in buckets[i];
      RankedMember(nodes, effective, buckets, i, x);
    }
  }

  /** With cache-stable rendering, compiles that select the same nodes give the same text. */
  lemma SameSelectionSamePrompt(cost: Cost<Node>, room: int, nodes: seq<Node>, effective: Option<map<NodeID, real>>,
                                buckets: seq<seq<Node>>, other: seq<seq<Node>>)
    requires AreRanked(nodes, effective, buckets) && IdsDecide(nodes)
    requires SameItems(Pick(cost, buckets, room).chosen, other)
    ensures FinalPrompt(true, Pick(cost, buckets, room).chosen) == FinalPrompt(true, other)
  {
    var chosen := Pick(cost, buckets, room).chosen;
    PickFits(cost, buckets, room);
    forall i | 0 <= i < |chosen| ensures IdsDecide(chosen[i]) {
      TakenIdsDecide(cost, room, nodes, effective, buckets, i);
    }
    StableSectionsAgree(chosen, other);
  }

  lemma RankedAlike(a: seq<Node>, b: seq<Node>, ea: Option<map<NodeID, real>>, eb: Option<map<NodeID, real>>,
                    bucketsA: seq<seq<Node>>, bucketsB: seq<seq<Node>>)
    requires multiset(a) == multiset(b) && AreRanked(a, ea, bucketsA) && AreRanked(b, eb, bucketsB)
    ensures SameItems(bucketsA, bucketsB)
  {
    forall i | 0 <= i < SECTIONS ensures multiset(bucketsA[i]) == multiset(bucketsB[i]) {
      forall x ensures multiset(bucketsA[i])[x] == multiset(bucketsB[i])[x] {
        RankedCount(a, ea, bucketsA, i, x);
        RankedCount(b, eb, bucketsB, i, x);
      }
    }
  }

  /** When everything fits, the text is a function of the set of nodes alone: neither their order, nor
      their scores, nor the ties in the sorts show. */
  lemma FittingPromptIsUnique(cost: Cost<Node>, room: int, a: seq<Node>, b: seq<Node>,
                              ea: Option<map<NodeID, real>>, eb: Option<map<NodeID, real>>,
                              bucketsA: seq<seq<Node>>, bucketsB: seq<seq<Node>>)
    requires multiset(a) == multiset(b) && IdsDecide(a) && NonNegative(cost, a)
    requires AreRanked(a, ea, bucketsA) && AreRanked(b, eb, bucketsB) && AllFit(cost, bucketsA, room)
    ensures FinalPrompt(true, Pick(cost, bucketsA, room).chosen) == FinalPrompt(true, Pick(cost, bucketsB, room).chosen)
  {
    RankedAlike(a, b, ea, eb, bucketsA, bucketsB);
    AllFitForgetsOrder(cost, bucketsA, bucketsB, room);
    Sorting.SameMembers(a, b);
    AllSelectedIff(cost, room, a, ea, bucketsA);
    AllSelectedIff(cost, room, b, eb, bucketsB);
    SameSelectionSamePrompt(cost, room, a, ea, bucketsA, bucketsB);
  }

  // ---------------------------------------------------------------- toggling the switch

  function TextSize(): Cost<Node> { n => |NodeText(n)| }

  function StringSize(): Cost<string> { s => |s| }

  lemma {:induction false} NodeTextsSize(nodes: seq<Node>)
    ensures |NodeTexts(nodes)| == Total(TextSize(), nodes)
  {
    if nodes != [] {
      NodeTextsSize(nodes[..|nodes| - 1]);
    }
  }

  /** Rendering in another order keeps the nodes and the length of the text. */
  lemma RenderKeepsNodes(stable: bool, nodes: seq<Node>)
    ensures multiset(InRenderOrder(stable, nodes)) == multiset(nodes)
    ensures |NodeTexts(InRenderOrder(stable, nodes))| == |NodeTexts(nodes)| == Total(TextSize(), nodes)
  {
    ArrangedMembers(RenderOrder(), nodes);
    NodeTextsSize(nodes);
    NodeTextsSize(InRenderOrder(stable, nodes));
    TotalForgetsOrder(TextSize(), InRenderOrder(stable, nodes), nodes);
  }

  /** The number of sections. */
  function SectionCount(chosen: seq<seq<Node>>): nat {
    if chosen == [] then 0 else SectionCount(chosen[..|chosen| - 1]) + if chosen[|chosen| - 1] == [] then 0 else 1
  }

  function HeadingSizes(chosen: seq<seq<Node>>): nat {
    if chosen == [] then 0
    else HeadingSizes(chosen[..|chosen| - 1]) + if chosen[|chosen| - 1] == [] then 0 else 4 + |Label(|chosen| - 1)|
  }

  lemma SectionSize(heading: string, stable: bool, nodes: seq<Node>)
    ensures |SectionText(heading, InRenderOrder(stable, nodes))| == 4 + |heading| + Total(TextSize(), nodes)
  {
    RenderKeepsNodes(stable, nodes);
  }

  lemma {:induction false} SectionsSize(stable: bool, chosen: seq<seq<Node>>)
    ensures |SectionTexts(stable, chosen)| == SectionCount(chosen)
    ensures Total(StringSize(), SectionTexts(stable, chosen)) == HeadingSizes(chosen) + TotalOf(TextSize(), chosen)
  {
    if chosen != [] {
      var i := |chosen| - 1;
      var front := SectionTexts(stable, chosen[..i]);
      SectionsSize(stable, chosen[..i]);
      if chosen[i] != [] {
        var text := SectionText(Label(i), InRenderOrder(stable, chosen[i]));
        SectionSize(Label(i), stable, chosen[i]);
        assert (front + [text])[..|front|] == front;
      } else {
        assert SectionTexts(stable, chosen) == front;
      }
    }
  }

  lemma {:induction false} JoinSize(parts: seq<string>, sep: string)
    ensures |Join(parts, sep)| == Total(StringSize(), parts) + if parts == [] then 0 else (|parts| - 1) * |sep|
  {
    if |parts| > 1 {
      JoinSize(parts[1..], sep);
      TotalConcat(StringSize(), [parts[0]], parts[1..]);
      assert parts == [parts[0]] + parts[1..];
      assert (|parts| - 1) * |sep| == |sep| + (|parts| - 2) * |sep|;
    }
    if parts != [] {
      assert [parts[0]][..0] == [];
      assert Total(StringSize(), [parts[0]]) == |parts[0]|;
      assert |parts| == 1 ==> parts == [parts[0]];
    }
  }

  lemma PromptSize(stable: bool, chosen: seq<seq<Node>>)
    ensures |FinalPrompt(stable, chosen)| ==
      HeadingSizes(chosen) + TotalOf(TextSize(), chosen)
      + if SectionCount(chosen) == 0 then 0 else (SectionCount(chosen) - 1) * 7
  {
    SectionsSize(stable, chosen);
    JoinSize(SectionTexts(stable, chosen), SEPARATOR);
    assert |SEPARATOR| == 7;
  }

  /** The switch for cache-stable rendering changes the order inside the sections and nothing else: the
      same nodes are selected for every section, the same nodes are noted as excluded, and the text is as
      long as before. */
  lemma ToggleKeepsSelection(c: Compiler, systemPrompt: string, userMessage: string, nodes: seq<Node>,
                             buckets: seq<seq<Node>>)
    requires |buckets| == SECTIONS
    ensures var on, off := c.(stable := true), c.(stable := false);
      var a := Compiled(on, systemPrompt, userMessage, nodes, buckets);
      var b := Compiled(off, systemPrompt, userMessage, nodes, buckets);
      SelectionFor(on, systemPrompt, userMessage, buckets) == SelectionFor(off, systemPrompt, userMessage, buckets)
      && a.excludedRefs == b.excludedRefs && |a.finalPrompt| == |b.finalPrompt|
  {
    var chosen := SelectionFor(c, systemPrompt, userMessage, buckets).chosen;
    PromptOfSelection(c, true, systemPrompt, userMessage, nodes, buckets);
    PromptOfSelection(c, false, systemPrompt, userMessage, nodes, buckets);
    PromptSize(true, chosen);
    PromptSize(false, chosen);
  }

  /** Selecting does not look at the switch. */
  lemma PromptOfSelection(c: Compiler, stable: bool, systemPrompt: string, userMessage: string, nodes: seq<Node>,
                          buckets: seq<seq<Node>>)
    requires |buckets| == SECTIONS
    ensures var cs, p := c.(stable := stable), SelectionFor(c, systemPrompt, userMessage, buckets);
      SelectionFor(cs, systemPrompt, userMessage, buckets) == p
      && Compiled(cs, systemPrompt, userMessage, nodes, buckets).excludedRefs == Ids(p.noted)
      && Compiled(cs, systemPrompt, userMessage, nodes, buckets).finalPrompt == FinalPrompt(stable, p.chosen)
  {
  }

  // ---------------------------------------------------------------- the size of the compiled prompt

  /** The fallback counter: a token for every four characters. */
  function Quarter(): Counter { s => |s| / 4 }

  /** A node whose token count covers its summary. Nodes made from an event count the whole payload, of
      which the summary may keep a truncated copy; nodes that print fact lines count their summary. A
      node without a summary, such as the root, prints its title. */
  predicate WellPriced(n: Node) {
    n.tokens >= 0
    && if n.summary == "" then |n.title| <= 33 && !EmitsFactsLine(n)
       else n.tokens == 0 || |n.summary| <= 4 * n.tokens + if EmitsFactsLine(n) then 3 else 5
  }

  lemma HeadLineSize(n: Node)
    ensures |HeadLine(n)| <= 3 + if n.summary != "" then |n.summary| else |n.title|
  {
  }

  lemma FactLinesSize(n: Node)
    ensures |FactLines(n)| <= 24 + |Join(n.facts, "; ")| + |Join(n.decisions, "; ")|
  {
  }

  lemma NodeTextBound(n: Node)
    requires WellPriced(n)
    ensures |NodeText(n)| <= 4 * CostOf(Quarter(), n) + 36
  {
    HeadLineSize(n);
    FactLinesSize(n);
  }

  lemma {:induction false} HeadingBound(chosen: seq<seq<Node>>)
    ensures HeadingSizes(chosen) <= 22 * SectionCount(chosen)
  {
    if chosen != [] {
      HeadingBound(chosen[..|chosen| - 1]);
      LabelSize(|chosen| - 1);
    }
  }

  lemma LabelSize(i: nat)
    ensures |Label(i)| <= 18
  {
    if i < |LABELS| {
      assert i == 0 || i == 1 || i == 2 || i == 3 || i == 4 || i == 5 || i == 6;
    }
  }

  /** The length of the text, in terms of what was selected. */
  lemma PromptBound(stable: bool, chosen: seq<seq<Node>>)
    requires forall n :: n in Flat(chosen) ==> WellPriced(n)
    ensures |FinalPrompt(stable, chosen)|
      <= 4 * Total(Costs(Quarter()), Flat(chosen)) + 36 * |Flat(chosen)| + 32 * SectionCount(chosen)
  {
    PromptSize(stable, chosen);
    HeadingBound(chosen);
    TotalOfFlat(TextSize(), chosen);
    forall n | n in Flat(chosen) ensures TextSize()(n) <= 4 * Costs(Quarter())(n) + 36 {
      NodeTextBound(n);
    }
    TotalBound(TextSize(), Costs(Quarter()), Flat(chosen), 4, 36);
  }

  lemma QuarterBound(size: nat, tokens: int, nodes: nat, sections: nat)
    requires size <= 4 * tokens + 36 * nodes + 32 * sections
    ensures size / 4 <= tokens + 9 * nodes + 8 * sections
  {
  }

  /** The size of the text against the room. */
  lemma TextBound(stable: bool, room: int, nodes: seq<Node>, effective: Option<map<NodeID, real>>,
                  buckets: seq<seq<Node>>, chosen: seq<seq<Node>>, size: nat)
    requires AreRanked(nodes, effective, buckets) && forall n :: n in nodes ==> WellPriced(n)
    requires chosen == Pick(Costs(Quarter()), buckets, room).chosen && size == |FinalPrompt(stable, chosen)|
    ensures size / 4 <= Max(room, 0) + 9 * |Flat(chosen)| + 8 * SectionCount(chosen)
  {
    WithinRoom(Costs(Quarter()), room, nodes, effective, buckets);
    TakenAreGiven(nodes, chosen);
    PromptBound(stable, chosen);
    QuarterBound(size, Total(Costs(Quarter()), Flat(chosen)), |Flat(chosen)|, SectionCount(chosen));
  }

  lemma ReserveIsWhole(systemPrompt: string, userMessage: string)
    ensures Reserve(Quarter(), systemPrompt, userMessage) == Quarter()(systemPrompt) + Quarter()(userMessage) >= 0
  {
  }

  /** The tokens of a compiled prompt are the reserve and those of the text. */
  lemma CompiledTokensAre(c: Compiler, systemPrompt: string, userMessage: string, chosen: seq<seq<Node>>)
    requires c.count == Quarter()
    ensures CompiledTokens(c, systemPrompt, userMessage, chosen)
         == Reserve(Quarter(), systemPrompt, userMessage) + |FinalPrompt(c.stable, chosen)| / 4
  {
    ReserveIsWhole(systemPrompt, userMessage);
  }

  lemma CompiledIs(c: Compiler, systemPrompt: string, userMessage: string, nodes: seq<Node>, buckets: seq<seq<Node>>,
                   chosen: seq<seq<Node>>)
    requires c.count == Quarter() && |buckets| == SECTIONS
    requires chosen == SelectionFor(c, systemPrompt, userMessage, buckets).chosen
    ensures Compiled(c, systemPrompt, userMessage, nodes, buckets).compiledTokens
         == Reserve(Quarter(), systemPrompt, userMessage) + |FinalPrompt(c.stable, chosen)| / 4
  {
    CompiledTokensAre(c, systemPrompt, userMessage, chosen);
  }

  /** The bound below, for the tokens on their own. */
  lemma TokensBound(stable: bool, budget: int, reserve: int, nodes: seq<Node>, effective: Option<map<NodeID, real>>,
                    buckets: seq<seq<Node>>, chosen: seq<seq<Node>>, size: nat)
    requires AreRanked(nodes, effective, buckets) && forall n :: n in nodes ==> WellPriced(n)
    requires chosen == Pick(Costs(Quarter()), buckets, budget - reserve).chosen
    requires size == |FinalPrompt(stable, chosen)|
    ensures reserve + size / 4 <= Max(budget, reserve) + 9 * |Flat(chosen)| + 8 * SectionCount(chosen)
  {
    TextBound(stable, budget - reserve, nodes, effective, buckets, chosen, size);
  }

  /** Under the fallback counter the compiled prompt exceeds the budget, or the reserve where that is
      larger, by at most nine tokens for a rendered node and eight for a section. */
  lemma CompiledTokensBound(c: Compiler, systemPrompt: string, userMessage: string, nodes: seq<Node>,
                            effective: Option<map<NodeID, real>>, buckets: seq<seq<Node>>)
    requires c.count == Quarter() && AreRanked(nodes, effective, buckets) && forall n :: n in nodes ==> WellPriced(n)
    ensures var chosen := SelectionFor(c, systemPrompt, userMessage, buckets).chosen;
      Compiled(c, systemPrompt, userMessage, nodes, buckets).compiledTokens
        <= Max(c.budget, Reserve(c.count, systemPrompt, userMessage)) + 9 * |Flat(chosen)| + 8 * SectionCount(chosen)
  {
    var reserve := Reserve(Quarter(), systemPrompt, userMessage);
    var chosen := SelectionFor(c, systemPrompt, userMessage, buckets).chosen;
    TokensBound(c.stable, c.budget, reserve, nodes, effective, buckets, chosen, |FinalPrompt(c.stable, chosen)|);
    CompiledIs(c, systemPrompt, userMessage, nodes, buckets, chosen);
  }

  lemma TakenAreGiven(nodes: seq<Node>, chosen: seq<seq<Node>>)
    requires multiset(Flat(chosen)) <= multiset(nodes)
    ensures forall n :: n in Flat(chosen) ==> n in nodes
  {
    forall n | n in Flat(chosen) ensures n in nodes {
      assert n in multiset(Flat(chosen));
      assert n in multiset(nodes);
    }
  }

  lemma OneGoalIsRanked(n: Node)
    requires n.kind == NodeGoal
    ensures AreRanked([n], None, [[n], [], [], [], [], [], []])
  {
    var buckets: seq<seq<Node>> := [[n], [], [], [], [], [], []];
    forall i | 0 <= i < SECTIONS ensures IsRankedBucket([n], None, buckets[i], i) {
      assert [n][..0] == [];
      assert Bucket([n], i) == if i == 0 then [n] else [];
      assert i > 0 ==> buckets[i] == [];
    }
  }

  lemma OneGoalIsTaken(cost: Cost<Node>, room: int, n: Node, buckets: seq<seq<Node>>)
    requires 0 <= cost(n) < room && AreRanked([n], None, buckets)
    ensures Pick(cost, buckets, room).chosen == buckets
  {
    assert [n][..0] == [];
    assert Total(cost, [n]) == cost(n);
    RoomForEverything(cost, room, [n], None, buckets);
    AllSelectedIff(cost, room, [n], None, buckets);
  }

  lemma OneSectionSizes(n: Node)
    ensures var chosen: seq<seq<Node>> := [[n], [], [], [], [], [], []];
      SectionCount(chosen) == 1 && HeadingSizes(chosen) == 4 + |Label(0)|
      && TotalOf(TextSize(), chosen) == |NodeText(n)|
  {
    var chosen: seq<seq<Node>> := [[n], [], [], [], [], [], []];
    Trailing(chosen, 7);
    assert chosen[..7] == chosen && chosen[..1] == [[n]] && [[n]][..0] == [] && [n][..0] == [];
  }

  lemma {:induction false} Trailing(chosen: seq<seq<Node>>, k: nat)
    requires 1 <= k <= |chosen| && forall i :: 0 < i < |chosen| ==> chosen[i] == []
    ensures SectionCount(chosen[..k]) == SectionCount(chosen[..1])
      && HeadingSizes(chosen[..k]) == HeadingSizes(chosen[..1])
    ensures TotalOf(TextSize(), chosen[..k]) == TotalOf(TextSize(), chosen[..1])
  {
    if k > 1 {
      Trailing(chosen, k - 1);
      assert chosen[..k][..k - 1] == chosen[..k - 1];
    }
  }

  lemma OneGoalSize(n: Node)
    requires n.kind == NodeGoal && n.summary == "abcd"
    ensures |FinalPrompt(false, [[n], [], [], [], [], [], []])| == 23
  {
    PromptSize(false, [[n], [], [], [], [], [], []]);
    OneSectionSizes(n);
    assert |NodeText(n)| == 7 && |Label(0)| == 12;
  }

  lemma NoReserve()
    ensures Reserve(Quarter(), "", "") == 0 && Quarter()("") == 0
  {
  }

  lemma TokensOfSelection(c: Compiler, nodes: seq<Node>, buckets: seq<seq<Node>>)
    requires c.count == Quarter() && |buckets| == SECTIONS && Pick(Costs(c.count), buckets, c.budget).chosen == buckets
    ensures Compiled(c, "", "", nodes, buckets).compiledTokens == |FinalPrompt(c.stable, buckets)| / 4
  {
    NoReserve();
    CompiledIs(c, "", "", nodes, buckets, buckets);
  }

  /** Headings and bullets are not costed, so the compiled prompt can exceed its budget. */
  lemma BudgetCanBeExceeded(n: Node, buckets: seq<seq<Node>>, c: Compiler)
    requires n.kind == NodeGoal && n.tokens == 1 && n.summary == "abcd" && buckets == [[n], [], [], [], [], [], []]
    requires c == Compiler(2, Quarter(), false)
    ensures WellPriced(n) && AreRanked([n], None, buckets)
    ensures Compiled(c, "", "", [n], buckets).compiledTokens == 5
  {
    OneGoalIsRanked(n);
    OneGoalIsTaken(Costs(c.count), c.budget, n, buckets);
    OneGoalSize(n);
    TokensOfSelection(c, [n], buckets);
  }
}
