/** Prompts compiled from the nodes that sessions really hold. */
module SessionPrompts {
  import opened Collections
  import opened Domain
  import opened Text
  import opened StateTree
  import opened RunLaws
  import opened Worker
  import opened SessionRuns
  import opened Selection
  import opened PromptCompiler
  import opened PromptLaws

  /** An event with a payload that was not counted, as the program's own trigger events, or whose token
      count is at least what the fallback counter gives. */
  predicate FairEvent(ev: Event) {
    ev.payload != "" && (ev.tokens == 0 || ev.tokens >= |ev.payload| / 4)
  }

  lemma TruncateSize(s: string)
    ensures |Truncate(s, 500)| <= |s| + 2
  {
  }

  lemma NeverSummary(lower: Lower, ev: Event)
    ensures Classify(lower, ev) != NodeSummary && Classify(lower, ev) != NodeCompressedBranch
  {
  }

  lemma EventNodeIsPriced(env: Env, s: Session, i: Input)
    requires FairEvent(i.ev)
    ensures WellPriced(EventNode(env, s, i))
  {
    TruncateSize(i.ev.payload);
    NeverSummary(env.texts.lower, i.ev);
  }

  predicate AllPriced(nodes: Nodes) {
    forall id :: id in nodes ==> WellPriced(nodes[id])
  }

  lemma EvolvedStaysPriced(m: Node, n: Node)
    requires Evolved(m, n) && WellPriced(m)
    ensures WellPriced(n)
  {
  }

  lemma ProcessKeepsPriced(env: Env, c: Config, i: Input)
    requires Inv(env, c) && Allowed(env, c.s, i) && AllPriced(c.s.tree.nodes) && FairEvent(i.ev)
    ensures AllPriced(Process(env, c, i).s.tree.nodes)
  {
    var nodes' := Process(env, c, i).s.tree.nodes;
    forall id | id in nodes' ensures WellPriced(nodes'[id]) {
      PricedAfterEvent(env, c, i, id);
    }
  }

  lemma PricedAfterEvent(env: Env, c: Config, i: Input, id: NodeID)
    requires Inv(env, c) && Allowed(env, c.s, i) && AllPriced(c.s.tree.nodes) && FairEvent(i.ev)
    requires id in Process(env, c, i).s.tree.nodes
    ensures WellPriced(Process(env, c, i).s.tree.nodes[id])
  {
    var n := Process(env, c, i).s.tree.nodes[id];
    var m := ComesFrom(env, c, i, id, n);
    EventNodeIsPriced(env, c.s, i);
    EvolvedStaysPriced(m, n);
  }

  lemma StepKeepsPriced(env: Env, cs: seq<Config>, ins: seq<Input>, k: nat)
    requires IsTrace(env, cs, ins) && Inv(env, cs[0]) && k < |ins|
    requires AllPriced(cs[k].s.tree.nodes) && FairEvent(ins[k].ev)
    ensures AllPriced(cs[k + 1].s.tree.nodes)
  {
    InvAlways(env, cs, ins, k);
    assert StepAt(env, cs, ins, k);
    ProcessKeepsPriced(env, cs[k], ins[k]);
  }

  /** In every state of a run over such events, the token count of every node covers its summary. */
  lemma {:induction false} PricedAlways(env: Env, cs: seq<Config>, ins: seq<Input>, k: nat)
    requires IsTrace(env, cs, ins) && Inv(env, cs[0]) && AllPriced(cs[0].s.tree.nodes) && k < |cs|
    requires forall j :: 0 <= j < |ins| ==> FairEvent(ins[j].ev)
    ensures AllPriced(cs[k].s.tree.nodes)
  {
    if k > 0 {
      PricedAlways(env, cs, ins, k - 1);
      StepKeepsPriced(env, cs, ins, k - 1);
    }
  }

  lemma FreshIsPriced(session: string)
    ensures AllPriced(NewSession(session).s.tree.nodes)
  {
  }

  /** The size bound for every prompt compiled in any state of a run from a fresh session. */
  lemma SessionPromptBound(env: Env, session: string, cs: seq<Config>, ins: seq<Input>, k: nat,
                           c: Compiler, systemPrompt: string, userMessage: string, nodes: seq<Node>,
                           effective: Option<map<NodeID, real>>, buckets: seq<seq<Node>>)
    requires IsTrace(env, cs, ins) && cs[0] == NewSession(session) && k < |cs|
    requires forall j :: 0 <= j < |ins| ==> FairEvent(ins[j].ev)
    requires forall n :: n in nodes ==> n.id in cs[k].s.tree.nodes && cs[k].s.tree.nodes[n.id] == n
    requires c.count == Quarter() && AreRanked(nodes, effective, buckets)
    ensures var chosen := SelectionFor(c, systemPrompt, userMessage, buckets).chosen;
      Compiled(c, systemPrompt, userMessage, nodes, buckets).compiledTokens
        <= Max(c.budget, Reserve(c.count, systemPrompt, userMessage)) + 9 * |Flat(chosen)| + 8 * SectionCount(chosen)
  {
    FreshIsPriced(session);
    NewSessionHasInv(env, session);
    PricedAlways(env, cs, ins, k);
    CompiledTokensBound(c, systemPrompt, userMessage, nodes, effective, buckets);
  }
}
