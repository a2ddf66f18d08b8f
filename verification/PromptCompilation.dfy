/** Compiling a prompt for a session: both indices are asked, their hits merged, and the active nodes
    compiled together with the archived nodes that were hit. */
module PromptCompilation {
  import opened Collections
  import opened Domain
  import opened VectorMath
  import opened CappedMerge
  import opened VectorIndex
  import opened Scoring
  import opened Worker
  import opened SessionAtWork
  import opened PromptCompiler
  import opened SemanticCompile

  /** The nodes that a compile works on, given the merged hits: the session's own, each once, namely the
      active ones and those archived ones that were hit. */
  ghost predicate AreCompiled(nodes: Nodes, merged: seq<Hit>, out: seq<Node>) {
    && NoDup(Ids(out))
    && (forall n :: n in out ==> n.id in nodes && nodes[n.id] == n)
    && (forall id :: id in Ids(out) <==> id in ActiveIds(nodes) || (id in HitIds(merged) && Revives(nodes, id)))
  }

  function NodesAt(nodes: Nodes, ids: seq<NodeID>): seq<Node>
    requires forall id :: id in ids ==> id in nodes
  {
    seq(|ids|, i requires 0 <= i < |ids| => assert ids[i] in ids; nodes[ids[i]])
  }

  lemma ValuesAreCompiled(nodes: Nodes, active: seq<NodeID>)
    requires Enumerates(active, ActiveIds(nodes)) && forall id :: id in nodes ==> nodes[id].id == id
    requires forall id :: id in active ==> id in nodes
    ensures AreCompiled(nodes, [], NodesAt(nodes, active))
  {
    assert forall i :: 0 <= i < |active| ==> active[i] in Elems(active);
    assert Ids(NodesAt(nodes, active)) == active;
    assert forall id :: id in ActiveIds(nodes) <==> id in Elems(active);
    assert HitIds([]) == [];
  }

  lemma CompileNodesAreCompiled(nodes: Nodes, active: seq<NodeID>, merged: seq<Hit>, out: seq<Node>)
    requires Enumerates(active, ActiveIds(nodes)) && AreCompileNodes(nodes, active, merged, out)
    ensures AreCompiled(nodes, merged, out)
  {
    assert forall id :: id in active <==> id in Elems(active);
  }

  // ---------------------------------------------------------------- hits of a session's indices

  /** A hit of either index is a hit of the session's own node, by that node's own embedding. */
  lemma HitsAreOfNodes(env: Env, s: Session, sc: Scorer, probe: Vec, hits: seq<Hit>, h: Hit, archived: bool)
    requires IndicesMatch(env, s) && h in hits
    requires AreHits(sc.sqrt, if archived then s.archive else s.active, probe, hits)
    requires forall id :: id in s.tree.nodes ==> s.tree.nodes[id].id == id
    ensures h.id in s.tree.nodes && s.tree.nodes[h.id].status == (if archived then Archived else Active)
    ensures IsHitOf(sc, if archived then s.archive else s.active, probe, s.tree.nodes[h.id], h)
  {
    var i :| 0 <= i < |hits| && hits[i] == h;
    assert hits[i].id in (if archived then s.archive else s.active);
  }

  /** No node is hit in both indices, so merging never has to choose. */
  lemma IndicesAreDisjoint(env: Env, s: Session)
    requires IndicesMatch(env, s)
    ensures s.active.Keys !! s.archive.Keys
  {
  }

  // ---------------------------------------------------------------- the method

  /** What a query of the index reports when the graph library finds `found`: the first live ones, each
      with its own distance and score; the nearest live ones, if the library finds the nearest. */
  ghost predicate AreHitsOf(sc: Scorer, ix: HNSWIndex, probe: Vec, k: int, found: seq<NodeID>, hits: seq<Hit>)
    reads ix
  {
    && AreHits(sc.sqrt, Live(ix.State()), probe, hits)
    && HitIds(hits) == Take(LiveOnly(found, ix.tombstones), EffectiveK(k))
    && (AreNearest(Ranks(sc.sqrt, ix.graph, probe), Fetch(ix.State(), EffectiveK(k)), found) ==>
        AreNearest(Ranks(sc.sqrt, Live(ix.State()), probe), EffectiveK(k), HitIds(hits)))
  }

  /** What both queries report, merged. */
  ghost predicate AreMergedHits(session: SessionState, sc: Scorer, probe: Vec, ka: int, kz: int,
                                foundA: seq<NodeID>, foundZ: seq<NodeID>, merged: seq<Hit>)
    reads session, session.activeIndex, session.archiveIndex
  {
    exists hitsA, hitsZ ::
      AreHitsOf(sc, session.activeIndex, probe, ka, foundA, hitsA)
      && AreHitsOf(sc, session.archiveIndex, probe, kz, foundZ, hitsZ) && AreMerged(hitsA + hitsZ, merged)
  }

  /** The graph library's answers are searches of the two graphs. */
  ghost predicate AreSearches(session: SessionState, ka: int, kz: int, foundA: seq<NodeID>, foundZ: seq<NodeID>)
    reads session, session.activeIndex, session.archiveIndex
  {
    && IsSearch(session.activeIndex.graph.Keys, Fetch(session.activeIndex.State(), EffectiveK(ka)), foundA)
    && IsSearch(session.archiveIndex.graph.Keys, Fetch(session.archiveIndex.State(), EffectiveK(kz)), foundZ)
  }

  /** The prompt compiled from the session's nodes with these hits. */
  ghost predicate IsPrompt(c: Compiler, systemPrompt: string, userMessage: string, nodes: Nodes, weight: real,
                           merged: seq<Hit>, cp: CompiledPrompt) {
    exists out :: AreCompiled(nodes, merged, out)
      && IsCompiled(c, systemPrompt, userMessage, out, Effective(weight, merged, out), cp)
  }

  method QueryIndex(sc: Scorer, ix: HNSWIndex, probe: Vec, k: int, found: seq<NodeID>) returns (hits: Option<seq<Hit>>)
    requires ix.Valid() && IsSquareRoot(sc.sqrt) && IsSearch(ix.graph.Keys, Fetch(ix.State(), EffectiveK(k)), found)
    ensures hits.None? <==> ix.Refuses(probe)
    ensures hits.Some? ==> AreHitsOf(sc, ix, probe, k, found, hits.value)
  {
    var r := ix.Query(sc.sqrt, probe, k, found);
    hits := if r.Failed? then None else Some(r.hits);
  }

  /** Queries both indices; nothing if a query is refused. `foundA` and `foundZ` are what the graph
      library finds. */
  method QueryBoth(session: SessionState, env: Env, sc: Scorer, probe: Vec, ka: int, kz: int,
                   foundA: seq<NodeID>, foundZ: seq<NodeID>)
    returns (merged: Option<seq<Hit>>)
    requires session.Valid(env) && IsSquareRoot(sc.sqrt) && AreSearches(session, ka, kz, foundA, foundZ)
    ensures merged.None? <==> session.activeIndex.Refuses(probe) || session.archiveIndex.Refuses(probe)
    ensures merged.Some? ==> AreMergedHits(session, sc, probe, ka, kz, foundA, foundZ, merged.value)
  {
    var a := QueryIndex(sc, session.activeIndex, probe, ka, foundA);
    if a.None? {
      return None;
    }
    var z := QueryIndex(sc, session.archiveIndex, probe, kz, foundZ);
    if z.None? {
      return None;
    }
    var hits := MergeSemanticHits(a.value, z.value);
    merged := Some(hits);
  }

  /** The prompt for these merged hits. */
  method CompileMerged(session: SessionState, c: Compiler, userMessage: string, systemPrompt: string, weight: real,
                       merged: seq<Hit>)
    returns (cp: CompiledPrompt)
    requires forall id :: id in session.tree.nodes ==> session.tree.nodes[id].id == id
    ensures IsPrompt(c, systemPrompt, userMessage, session.tree.nodes, weight, merged, cp)
  {
    var active := session.tree.GetActiveNodes();
    assert forall id :: id in active ==> id in Elems(active);
    var out := NodesForSemanticCompile(session.tree.nodes, active, merged);
    CompileNodesAreCompiled(session.tree.nodes, active, merged, out);
    cp := CompileWithSemantic(c, userMessage, out, systemPrompt, weight, merged);
  }

  /** The prompt from the active nodes alone. */
  method CompileActive(session: SessionState, c: Compiler, userMessage: string, systemPrompt: string,
                       ghost weight: real)
    returns (cp: CompiledPrompt)
    requires forall id :: id in session.tree.nodes ==> session.tree.nodes[id].id == id
    ensures IsPrompt(c, systemPrompt, userMessage, session.tree.nodes, weight, [], cp)
  {
    var active := session.tree.GetActiveNodes();
    assert forall id :: id in active ==> id in Elems(active);
    ValuesAreCompiled(session.tree.nodes, active);
    cp := Compile(c, userMessage, NodesAt(session.tree.nodes, active), systemPrompt, None);
  }

  /** Whether both indices are asked and answer. `probe` is the embedding of the user message. */
  ghost predicate IsAnswered(session: SessionState, userMessage: string, probe: Option<Vec>)
    reads session, session.activeIndex, session.archiveIndex
  {
    probe.Some? && userMessage != ""
    && !session.activeIndex.Refuses(probe.value) && !session.archiveIndex.Refuses(probe.value)
  }

  /** The hits that a compile goes by: those of both indices, merged, or none. */
  ghost predicate AreHitsUsed(session: SessionState, sc: Scorer, userMessage: string, probe: Option<Vec>,
                              ka: int, kz: int, foundA: seq<NodeID>, foundZ: seq<NodeID>, merged: seq<Hit>)
    reads session, session.activeIndex, session.archiveIndex
  {
    if IsAnswered(session, userMessage, probe)
    then AreMergedHits(session, sc, probe.value, ka, kz, foundA, foundZ, merged)
    else merged == []
  }

  function OrNone(found: Option<seq<Hit>>): seq<Hit> { if found.Some? then found.value else [] }

  method AskIndices(session: SessionState, env: Env, sc: Scorer, userMessage: string, probe: Option<Vec>,
                    ka: int, kz: int, foundA: seq<NodeID>, foundZ: seq<NodeID>)
    returns (found: Option<seq<Hit>>)
    requires session.Valid(env) && IsSquareRoot(sc.sqrt) && AreSearches(session, ka, kz, foundA, foundZ)
    ensures AreHitsUsed(session, sc, userMessage, probe, ka, kz, foundA, foundZ, OrNone(found))
  {
    found := None;
    if probe.Some? && userMessage != "" {
      found := QueryBoth(session, env, sc, probe.value, ka, kz, foundA, foundZ);
    }
  }

  /** `cp` is compiled from the session's nodes with the hits that are used. */
  ghost predicate IsSessionPrompt(session: SessionState, sc: Scorer, c: Compiler, userMessage: string,
                                  systemPrompt: string, weight: real, probe: Option<Vec>, ka: int, kz: int,
                                  foundA: seq<NodeID>, foundZ: seq<NodeID>, cp: CompiledPrompt)
    reads session, session.tree, session.activeIndex, session.archiveIndex
  {
    exists merged :: AreHitsUsed(session, sc, userMessage, probe, ka, kz, foundA, foundZ, merged)
                     && IsPrompt(c, systemPrompt, userMessage, session.tree.nodes, weight, merged, cp)
  }

  /** Compiling for a known session: without a query vector, or when an index refuses it, the heuristic
      scores decide. */
  method CompileForSession(session: SessionState, env: Env, sc: Scorer, c: Compiler, userMessage: string,
                           systemPrompt: string, weight: real, probe: Option<Vec>, ka: int, kz: int,
                           foundA: seq<NodeID>, foundZ: seq<NodeID>)
    returns (cp: CompiledPrompt)
    requires session.Valid(env) && IsSquareRoot(sc.sqrt) && AreSearches(session, ka, kz, foundA, foundZ)
    requires forall id :: id in session.tree.nodes ==> session.tree.nodes[id].id == id
    ensures IsSessionPrompt(session, sc, c, userMessage, systemPrompt, weight, probe, ka, kz, foundA, foundZ, cp)
  {
    var found := AskIndices(session, env, sc, userMessage, probe, ka, kz, foundA, foundZ);
    if found.Some? {
      cp := CompileMerged(session, c, userMessage, systemPrompt, weight, found.value);
    } else {
      cp := CompileActive(session, c, userMessage, systemPrompt, weight);
    }
    assert IsPrompt(c, systemPrompt, userMessage, session.tree.nodes, weight, OrNone(found), cp);
  }

  /** The answer for a session that is not in the table: no text, and the tokens of the other messages. */
  function NoSessionPrompt(count: Counter, systemPrompt: string, userMessage: string): CompiledPrompt {
    var tokens := count(systemPrompt) + count(userMessage);
    CompiledPrompt("", tokens, tokens, "", [], [], [], [], [], [])
  }

  function ResolvedBudget(own: int, request: int, defaultBudget: int): int {
    if request > 0 then request else if own > 0 then own else defaultBudget
  }

  /** `CompilePrompt`; `session` is the entry of the table, if there is one. A positive requested budget
      becomes the session's own. */
  method CompilePrompt(session: SessionState?, env: Env, sc: Scorer, count: Counter, stable: bool, defaultBudget: int,
                       request: int, userMessage: string, systemPrompt: string, weight: real, probe: Option<Vec>,
                       ka: int, kz: int, foundA: seq<NodeID>, foundZ: seq<NodeID>)
    returns (cp: CompiledPrompt)
    requires IsSquareRoot(sc.sqrt)
    requires session != null ==> session.Valid(env) && AreSearches(session, ka, kz, foundA, foundZ)
    requires session != null ==> forall id :: id in session.tree.nodes ==> session.tree.nodes[id].id == id
    modifies if session == null then {} else {session}
    ensures session == null ==> cp == NoSessionPrompt(count, systemPrompt, userMessage)
    ensures session != null ==> session.State() == old(session.State())
    ensures session != null ==> session.tokenBudget == if request > 0 then request else old(session.tokenBudget)
    ensures session != null ==>
      var c := Compiler(ResolvedBudget(old(session.tokenBudget), request, defaultBudget), count, stable);
      IsSessionPrompt(session, sc, c, userMessage, systemPrompt, weight, probe, ka, kz, foundA, foundZ, cp)
  {
    if session == null {
      return NoSessionPrompt(count, systemPrompt, userMessage);
    }
    var budget := session.EffectiveBudget(request, defaultBudget);
    cp := CompileForSession(session, env, sc, Compiler(budget, count, stable), userMessage, systemPrompt,
                            weight, probe, ka, kz, foundA, foundZ);
  }
}
