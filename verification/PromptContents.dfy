/** What a compiled prompt lists beside its text, and what the lines of a node say. */
module PromptContents {
  import opened Collections
  import opened Domain
  import opened Text
  import opened Sorting
  import opened Selection
  import opened PromptCompiler
  import opened PromptLaws
  import opened PromptRanking

  // ---------------------------------------------------------------- the lines of a node

  /** A node is rendered by its summary, or by its title if it has none. */
  lemma NodeIsNamed(n: Node)
    ensures n.summary != "" ==> IsPart("- " + n.summary + "\n", NodeText(n))
    ensures n.summary == "" && n.title != "" ==> IsPart("- " + n.title + "\n", NodeText(n))
  {
    HeadComesFirst(HeadLine(n), if EmitsFactsLine(n) then FactLines(n) else "", NodeText(n));
  }

  lemma HeadComesFirst(head: string, rest: string, text: string)
    requires text == head + rest
    ensures IsPart(head, text)
  {
    WholeIsPart(head);
    EitherPart(head, head, rest);
  }

  /** Compressed and summary nodes print every fact and every decision they carry. */
  lemma FactsAreRead(n: Node, x: string)
    requires n.kind == NodeCompressedBranch || n.kind == NodeSummary
    requires x in n.facts || x in n.decisions
    ensures IsPart(x, NodeText(n))
  {
    FactLinesAreRead(n, x);
    PartOfPart(x, FactLines(n), HeadLine(n), "");
    assert HeadLine(n) + FactLines(n) + "" == NodeText(n);
  }

  lemma FactLinesAreRead(n: Node, x: string)
    requires x in n.facts || x in n.decisions
    ensures IsPart(x, FactLines(n))
  {
    if x in n.facts {
      ListIsRead("  facts: ", n.facts, x);
    }
    if x in n.decisions {
      ListIsRead("  decisions: ", n.decisions, x);
    }
    EitherPart(x, if |n.facts| > 0 then "  facts: " + Join(n.facts, "; ") + "\n" else "",
               if |n.decisions| > 0 then "  decisions: " + Join(n.decisions, "; ") + "\n" else "");
  }

  lemma EitherPart(x: string, a: string, b: string)
    requires IsPart(x, a) || IsPart(x, b)
    ensures IsPart(x, a + b)
  {
    if IsPart(x, a) {
      PartOfPart(x, a, "", b);
      assert "" + a + b == a + b;
    } else {
      PartOfPart(x, b, a, "");
      assert a + b + "" == a + b;
    }
  }

  lemma ListIsRead(head: string, items: seq<string>, x: string)
    requires x in items
    ensures IsPart(x, head + Join(items, "; ") + "\n")
  {
    var k :| 0 <= k < |items| && items[k] == x;
    JoinedIsPart(items, "; ", k);
    PartOfPart(x, Join(items, "; "), head, "\n");
  }

  // ---------------------------------------------------------------- the order in a section

  /** With stable rendering a section runs by turn, and by printed id within a turn. */
  lemma RenderedByTurn(selected: seq<Node>, i: nat, j: nat)
    requires i < j < |selected|
    ensures var out := InRenderOrder(true, selected);
      |out| == |selected| && multiset(out) == multiset(selected)
      && out[i].turn <= out[j].turn
      && (out[i].turn == out[j].turn ==> !LexLess(Render(out[j].id), Render(out[i].id)))
  {
    var out := InRenderOrder(true, selected);
    RenderOrderIsStrict();
    ArrangedMembers(RenderOrder(), selected);
    ArrangedAscends(RenderOrder(), selected);
    SameMembers(out, selected);
    assert !RenderOrder()(out[j], out[i]);
  }

  // ---------------------------------------------------------------- what is noted as excluded

  lemma PickOneNotes<T>(cost: Cost<T>, p: Picked<T>, bucket: seq<T>)
    ensures var q := PickOne(cost, p, bucket);
      multiset(q.noted) == multiset(p.noted)
        + if q.chosen[|p.chosen|] == [] then multiset{} else multiset(bucket) - multiset(q.chosen[|p.chosen|])
  {
    var c := Choose(cost, bucket, p.left);
    ChooseParts(cost, bucket, p.left);
    assert multiset(bucket) - multiset(c.selected) == multiset(c.excluded);
    assert multiset(p.noted + c.excluded) == multiset(p.noted) + multiset(c.excluded);
  }

  /** Left out of bucket `i`, from which something was taken. */
  ghost predicate NotedAt<T>(cost: Cost<T>, buckets: seq<seq<T>>, budget: int, i: nat, x: T) {
    LeftOut(cost, buckets, budget, i, x) && Pick(cost, buckets, budget).chosen[i] != []
  }

  lemma NotedAtFront<T>(cost: Cost<T>, buckets: seq<seq<T>>, budget: int, i: nat, x: T)
    requires i < |buckets| - 1
    ensures NotedAt(cost, buckets, budget, i, x) <==> NotedAt(cost, buckets[..|buckets| - 1], budget, i, x)
  {
    PickEarlier(cost, buckets, budget, i);
    assert buckets[..|buckets| - 1][i] == buckets[i];
  }

  /** What is noted as excluded is what was left out of those buckets from which something was taken. */
  lemma {:induction false} NotedIff<T>(cost: Cost<T>, buckets: seq<seq<T>>, budget: int, x: T)
    ensures x in Pick(cost, buckets, budget).noted <==> exists i :: NotedAt(cost, buckets, budget, i, x)
  {
    if buckets != [] {
      var n := |buckets| - 1;
      NotedIff(cost, buckets[..n], budget, x);
      NotedStep(cost, buckets, budget, x);
      forall i: nat ensures NotedAt(cost, buckets, budget, i, x)
        <==> NotedAt(cost, buckets[..n], budget, i, x) || (i == n && NotedAt(cost, buckets, budget, n, x))
      {
        if i < n {
          NotedAtFront(cost, buckets, budget, i, x);
        }
      }
    }
  }

  lemma NotedStep<T>(cost: Cost<T>, buckets: seq<seq<T>>, budget: int, x: T)
    requires buckets != []
    ensures var n := |buckets| - 1;
      x in Pick(cost, buckets, budget).noted
      <==> x in Pick(cost, buckets[..n], budget).noted || NotedAt(cost, buckets, budget, n, x)
  {
    var n := |buckets| - 1;
    PickFits(cost, buckets[..n], budget);
    var p, q := Pick(cost, buckets[..n], budget), Pick(cost, buckets, budget);
    PickOneNotes(cost, p, buckets[n]);
    assert x in q.noted <==> x in multiset(q.noted);
    assert x in p.noted <==> x in multiset(p.noted);
  }

  // ---------------------------------------------------------------- the lists of a prompt

  /** The lists of a prompt are the summaries of what its sections hold, in the order of rendering; the
      constraints are listed whether they are selected or not. */
  lemma ListsOfPrompt(c: Compiler, systemPrompt: string, userMessage: string, nodes: seq<Node>,
                      effective: Option<map<NodeID, real>>, cp: CompiledPrompt)
    returns (chosen: seq<seq<Node>>)
    requires IsCompiled(c, systemPrompt, userMessage, nodes, effective, cp) && forall n :: n in nodes ==> n.tokens >= 0
    ensures InSections(chosen) && cp.finalPrompt == FinalPrompt(c.stable, chosen)
    ensures cp.relevantDecisions == Summaries(InRenderOrder(c.stable, chosen[2]))
    ensures cp.compressedContext == Summaries(InRenderOrder(c.stable, chosen[3]))
    ensures cp.relevantToolOutputs == Summaries(InRenderOrder(c.stable, chosen[4]))
    ensures cp.openIssues == Summaries(InRenderOrder(c.stable, chosen[5]))
    ensures forall s :: s in cp.activeConstraints <==>
                        exists n :: n in nodes && n.kind == NodeConstraint && n.summary == s
  {
    var ranked: seq<seq<Node>> :|
      AreRanked(nodes, effective, ranked) && cp == Compiled(c, systemPrompt, userMessage, nodes, ranked);
    chosen := SelectionFor(c, systemPrompt, userMessage, ranked).chosen;
    CompilerChoosesBest(c, systemPrompt, userMessage, nodes, effective, ranked, chosen);
    CompiledLists(c, systemPrompt, userMessage, nodes, ranked, chosen);
    ConstraintsAreListed(nodes, effective, ranked);
  }

  lemma CompiledLists(c: Compiler, systemPrompt: string, userMessage: string, nodes: seq<Node>,
                      ranked: seq<seq<Node>>, chosen: seq<seq<Node>>)
    requires |ranked| == SECTIONS == |chosen|
    requires chosen == SelectionFor(c, systemPrompt, userMessage, ranked).chosen
    ensures var cp := Compiled(c, systemPrompt, userMessage, nodes, ranked);
      && cp.finalPrompt == FinalPrompt(c.stable, chosen)
      && cp.relevantDecisions == Summaries(InRenderOrder(c.stable, chosen[2]))
      && cp.compressedContext == Summaries(InRenderOrder(c.stable, chosen[3]))
      && cp.relevantToolOutputs == Summaries(InRenderOrder(c.stable, chosen[4]))
      && cp.openIssues == Summaries(InRenderOrder(c.stable, chosen[5]))
      && cp.activeConstraints == Summaries(ranked[1])
  {
  }

  lemma ConstraintsAreListed(nodes: seq<Node>, effective: Option<map<NodeID, real>>, ranked: seq<seq<Node>>)
    requires AreRanked(nodes, effective, ranked)
    ensures forall s :: s in Summaries(ranked[1]) <==>
                        exists n :: n in nodes && n.kind == NodeConstraint && n.summary == s
  {
    forall s | s in Summaries(ranked[1]) ensures exists n :: n in nodes && n.kind == NodeConstraint && n.summary == s {
      var i :| 0 <= i < |ranked[1]| && Summaries(ranked[1])[i] == s;
      RankedMember(nodes, effective, ranked, 1, ranked[1][i]);
    }
    forall n | n in nodes && n.kind == NodeConstraint ensures n.summary in Summaries(ranked[1]) {
      InItsBucket(nodes, effective, ranked, n);
      var i :| 0 <= i < |ranked[1]| && ranked[1][i] == n;
      assert Summaries(ranked[1])[i] == n.summary;
    }
  }
}
