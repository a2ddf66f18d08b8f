/** Semantic retrieval at compile time: merging the hits of two indices, choosing the nodes to compile,
    and blending the fresh similarities into the scores. */
module SemanticCompile {
  import opened Collections
  import opened Domain
  import opened VectorMath
  import opened VectorIndex
  import opened Scoring
  import opened Sorting
  import opened PromptCompiler

  // ---------------------------------------------------------------- merging hits

  /** The best hit for every id; of equal scores the first wins. */
  function Best(hits: seq<Hit>): map<NodeID, Hit> {
    if hits == [] then map[]
    else
      var m, h := Best(hits[..|hits| - 1]), hits[|hits| - 1];
      if h.id !in m || h.score > m[h.id].score then m[h.id := h] else m
  }

  /** `h` is a hit with the highest score for its id. */
  predicate IsBestHit(hits: seq<Hit>, h: Hit) {
    h in hits && forall o :: o in hits && o.id == h.id ==> o.score <= h.score
  }

  lemma {:induction false} BestIsBest(hits: seq<Hit>, id: NodeID)
    ensures id in Best(hits) ==> Best(hits)[id].id == id && IsBestHit(hits, Best(hits)[id])
    ensures id !in Best(hits) ==> forall o :: o in hits ==> o.id != id
  {
    if hits != [] {
      var front, h := hits[..|hits| - 1], hits[|hits| - 1];
      assert hits == front + [h];
      BestIsBest(front, id);
    }
  }

  /** What merging two lists of hits gives: the best hit of every id, once, best first. */
  ghost predicate AreMerged(hits: seq<Hit>, out: seq<Hit>) {
    && NoDup(HitIds(out)) && (forall o :: o in hits ==> o.id in HitIds(out))
    && (forall h :: h in out ==> IsBestHit(hits, h))
    && (forall i, j :: 0 <= i < j < |out| ==> out[i].score >= out[j].score)
  }

  function HitScore(): Hit -> real { (h: Hit) => h.score }

  /** One loop over a list of hits. */
  method KeepBest(best: map<NodeID, Hit>, ghost before: seq<Hit>, hits: seq<Hit>) returns (out: map<NodeID, Hit>)
    requires best == Best(before)
    ensures out == Best(before + hits)
  {
    out := best;
    assert before + hits[..0] == before;
    for i := 0 to |hits|
      invariant out == Best(before + hits[..i])
    {
      var h := hits[i];
      assert (before + hits[..i + 1])[..|before| + i] == before + hits[..i];
      if h.id !in out || h.score > out[h.id].score {
        out := out[h.id := h];
      }
    }
    assert hits[..|hits|] == hits;
  }

  /** The values of the map, in the map's iteration order. */
  method Values(best: map<NodeID, Hit>) returns (out: seq<Hit>)
    requires forall id :: id in best ==> best[id].id == id
    ensures NoDup(HitIds(out)) && Elems(HitIds(out)) == best.Keys
    ensures forall h :: h in out ==> h.id in best && best[h.id] == h
  {
    out := [];
    var rest := best.Keys;
    while rest != {}
      invariant rest <= best.Keys && NoDup(HitIds(out)) && Elems(HitIds(out)) == best.Keys - rest
      invariant forall h :: h in out ==> h.id in best && best[h.id] == h
      decreases rest
    {
      var id :| id in rest;
      rest := rest - {id};
      assert HitIds(out + [best[id]]) == HitIds(out) + [id];
      assert id !in Elems(HitIds(out));
      EnumeratesSnoc(HitIds(out), id);
      out := out + [best[id]];
    }
  }

  lemma IdsAreMembers(hits: seq<Hit>, h: Hit)
    requires h in hits
    ensures h.id in HitIds(hits)
  {
    var i :| 0 <= i < |hits| && hits[i] == h;
    assert HitIds(hits)[i] == h.id;
  }

  /** A permutation of hits with distinct ids has distinct ids. */
  lemma PermutedIds(a: seq<Hit>, b: seq<Hit>)
    requires multiset(a) == multiset(b) && NoDup(HitIds(a))
    ensures NoDup(HitIds(b)) && forall id :: id in HitIds(a) ==> id in HitIds(b)
  {
    Sorting.SameMembers(a, b);
    forall id | id in HitIds(a) ensures id in HitIds(b) {
      var i :| 0 <= i < |a| && a[i].id == id;
      IdsAreMembers(b, a[i]);
    }
    assert Elems(HitIds(a)) <= Elems(HitIds(b));
    EnumerationSize(HitIds(a));
    FullEnumerationHasNoDup(HitIds(b), Elems(HitIds(a)));
  }

  lemma {:induction false} ElemsSize<T>(s: seq<T>)
    ensures |Elems(s)| <= |s|
  {
    if s != [] {
      var front := s[..|s| - 1];
      assert s == front + [s[|s| - 1]];
      ElemsSize(front);
      assert Elems(s) == Elems(front) + {s[|s| - 1]};
    }
  }

  /** A sequence no longer than the number of its members repeats nothing. */
  lemma {:induction false} FullEnumerationHasNoDup<T>(s: seq<T>, all: set<T>)
    requires all <= Elems(s) && |all| == |s|
    ensures NoDup(s)
  {
    forall i, j | 0 <= i < j < |s| ensures s[i] != s[j] {
      if s[i] == s[j] {
        var t := s[..j] + s[j + 1..];
        assert s == s[..j] + [s[j]] + s[j + 1..];
        assert t[i] == s[i];
        assert forall x :: x in s ==> x in t;
        SubsetSize(all, Elems(t));
        ElemsSize(t);
        assert false;
      }
    }
  }

  method MergeSemanticHits(hitsA: seq<Hit>, hitsArchive: seq<Hit>) returns (out: seq<Hit>)
    ensures AreMerged(hitsA + hitsArchive, out)
  {
    var best := KeepBest(map[], [], hitsA);
    assert [] + hitsA == hitsA;
    best := KeepBest(best, hitsA, hitsArchive);
    ghost var hits := hitsA + hitsArchive;
    forall id ensures id in best ==> best[id].id == id && IsBestHit(hits, best[id])
      ensures id !in best ==> forall o :: o in hits ==> o.id != id
    {
      BestIsBest(hits, id);
    }
    var values := Values(best);
    out := SortDescending(HitScore(), values);
    PermutedIds(values, out);
    Sorting.SameMembers(values, out);
    forall o | o in hits ensures o.id in HitIds(out) {
      assert o.id in Elems(HitIds(values));
    }
    forall i, j | 0 <= i < j < |out| ensures out[i].score >= out[j].score {
      assert HitScore()(out[i]) >= HitScore()(out[j]);
    }
  }

  // ---------------------------------------------------------------- the nodes to compile

  /** A hit that brings back an archived node. */
  predicate Revives(nodes: Nodes, id: NodeID) {
    id != NoID && id in nodes && nodes[id].status == Archived
  }

  /** The ids that are compiled: the active nodes, and the archived nodes among the hits. */
  ghost predicate AreCompileNodes(nodes: Nodes, active: seq<NodeID>, merged: seq<Hit>, out: seq<Node>) {
    && NoDup(Ids(out))
    && (forall n :: n in out ==> n.id in nodes && nodes[n.id] == n)
    && (forall id :: id in Ids(out) <==> id in active || (id in HitIds(merged) && Revives(nodes, id)))
  }

  /** The ids of `out` are those `seen`, each once, and every node is the tree's own. */
  ghost predicate Holds(nodes: Nodes, out: seq<Node>, seen: set<NodeID>) {
    NoDup(Ids(out)) && Elems(Ids(out)) == seen && forall n :: n in out ==> n.id in nodes && nodes[n.id] == n
  }

  lemma HoldsOneMore(nodes: Nodes, out: seq<Node>, seen: set<NodeID>, id: NodeID)
    requires Holds(nodes, out, seen) && id !in seen && id in nodes && nodes[id].id == id
    ensures Holds(nodes, out + [nodes[id]], seen + {id})
  {
    assert Ids(out + [nodes[id]]) == Ids(out) + [id];
    assert id in Ids(out) ==> id in Elems(Ids(out));
    EnumeratesSnoc(Ids(out), id);
  }

  method NodesForSemanticCompile(nodes: Nodes, active: seq<NodeID>, merged: seq<Hit>) returns (out: seq<Node>)
    requires forall id :: id in nodes ==> nodes[id].id == id
    requires forall id :: id in active ==> id in nodes
    ensures AreCompileNodes(nodes, active, merged, out)
  {
    out := [];
    var seen: set<NodeID> := {};
    for i := 0 to |active|
      invariant Holds(nodes, out, seen) && seen == Elems(active[..i])
    {
      var id := active[i];
      assert active[..i + 1] == active[..i] + [id];
      if id in seen {
        continue;
      }
      HoldsOneMore(nodes, out, seen, id);
      seen := seen + {id};
      out := out + [nodes[id]];
    }
    assert active[..|active|] == active;
    ghost var base := seen;
    for i := 0 to |merged|
      invariant Holds(nodes, out, seen) && seen == base + Revived(nodes, merged[..i])
    {
      var id := merged[i].id;
      RevivedStep(nodes, merged, i);
      if id == NoID || id in seen {
        continue;
      }
      if id !in nodes || nodes[id].status != Archived {
        continue;
      }
      HoldsOneMore(nodes, out, seen, id);
      seen := seen + {id};
      out := out + [nodes[id]];
    }
    assert merged[..|merged|] == merged;
    forall id ensures id in Ids(out) <==> id in active || (id in HitIds(merged) && Revives(nodes, id)) {
      assert id in Ids(out) <==> id in Elems(Ids(out));
    }
  }

  function Revived(nodes: Nodes, merged: seq<Hit>): set<NodeID> {
    set id | id in HitIds(merged) && Revives(nodes, id)
  }

  lemma RevivedStep(nodes: Nodes, merged: seq<Hit>, i: nat)
    requires i < |merged|
    ensures Revived(nodes, merged[..i + 1]) ==
      Revived(nodes, merged[..i]) + if Revives(nodes, merged[i].id) then {merged[i].id} else {}
  {
    assert HitIds(merged[..i + 1]) == HitIds(merged[..i]) + [merged[i].id];
  }

  // ---------------------------------------------------------------- effective scores

  function HitScores(hits: seq<Hit>): map<NodeID, real> {
    if hits == [] then map[] else HitScores(hits[..|hits| - 1])[hits[|hits| - 1].id := hits[|hits| - 1].score]
  }

  function Exchange(weight: real, stale: real, hit: real): real { weight * (hit - stale) }

  /** A score with the old similarity taken out and a fresh one put in. */
  function Exchanged(weight: real, base: real, stale: real, hit: real): real {
    base + Exchange(weight, stale, hit)
  }

  function Blended(weight: real, scores: map<NodeID, real>, n: Node): real {
    if n.id in scores then Exchanged(weight, n.scores.retention, n.scores.semantic, scores[n.id])
    else n.scores.retention
  }

  function EffectiveScores(weight: real, scores: map<NodeID, real>, nodes: seq<Node>): map<NodeID, real> {
    if nodes == [] then map[]
    else
      var n := nodes[|nodes| - 1];
      EffectiveScores(weight, scores, nodes[..|nodes| - 1])[n.id := Blended(weight, scores, n)]
  }

  function Effective(weight: real, topK: seq<Hit>, nodes: seq<Node>): Option<map<NodeID, real>> {
    if |topK| == 0 || weight <= 0.0 then None else Some(EffectiveScores(weight, HitScores(topK), nodes))
  }

  method CompileWithSemantic(c: Compiler, userMessage: string, nodes: seq<Node>, systemPrompt: string, weight: real,
                             topK: seq<Hit>)
    returns (cp: CompiledPrompt)
    ensures IsCompiled(c, systemPrompt, userMessage, nodes, Effective(weight, topK, nodes), cp)
  {
    if |topK| == 0 || weight <= 0.0 {
      cp := Compile(c, userMessage, nodes, systemPrompt, None);
      return;
    }
    var hitScores, effective: map<NodeID, real> := map[], map[];
    for i := 0 to |topK|
      invariant hitScores == HitScores(topK[..i])
    {
      assert topK[..i + 1][..i] == topK[..i];
      hitScores := hitScores[topK[i].id := topK[i].score];
    }
    assert topK[..|topK|] == topK;
    for i := 0 to |nodes|
      invariant effective == EffectiveScores(weight, hitScores, nodes[..i])
    {
      assert nodes[..i + 1][..i] == nodes[..i];
      var base := nodes[i].scores.retention;
      if nodes[i].id in hitScores {
        base := Exchanged(weight, base, nodes[i].scores.semantic, hitScores[nodes[i].id]);
      }
      assert base == Blended(weight, hitScores, nodes[i]);
      assert nodes[..i + 1][i] == nodes[i] && nodes[..i + 1] != [];
      effective := effective[nodes[i].id := base];
    }
    assert nodes[..|nodes|] == nodes;
    cp := Compile(c, userMessage, nodes, systemPrompt, Some(effective));
  }

  lemma NoDupFront<T>(s: seq<T>, x: T)
    requires NoDup(s + [x])
    ensures NoDup(s) && x !in s
  {
    forall i, j | 0 <= i < j < |s| ensures s[i] != s[j] {
      assert (s + [x])[i] != (s + [x])[j];
    }
    forall i | 0 <= i < |s| ensures s[i] != x {
      assert (s + [x])[i] != (s + [x])[|s|];
    }
  }

  lemma {:induction false} HitScoreAt(hits: seq<Hit>, h: Hit)
    requires NoDup(HitIds(hits)) && h in hits
    ensures h.id in HitScores(hits) && HitScores(hits)[h.id] == h.score
  {
    var front, last := hits[..|hits| - 1], hits[|hits| - 1];
    assert hits == front + [last];
    assert HitIds(hits) == HitIds(front) + [last.id];
    NoDupFront(HitIds(front), last.id);
    if h in front {
      IdsAreMembers(front, h);
      HitScoreAt(front, h);
    }
  }

  lemma {:induction false} EffectiveAt(weight: real, scores: map<NodeID, real>, nodes: seq<Node>, n: Node)
    requires NoDup(Ids(nodes)) && n in nodes
    ensures n.id in EffectiveScores(weight, scores, nodes)
    ensures EffectiveScores(weight, scores, nodes)[n.id] == Blended(weight, scores, n)
  {
    var front, last := nodes[..|nodes| - 1], nodes[|nodes| - 1];
    assert nodes == front + [last];
    assert Ids(nodes) == Ids(front) + [last.id];
    NoDupFront(Ids(front), last.id);
    if n in front {
      var i :| 0 <= i < |front| && front[i] == n;
      assert Ids(front)[i] == n.id;
      EffectiveAt(weight, scores, front, n);
    }
  }

  // ---------------------------------------------------------------- re-blending against re-scoring

  /** How far clamping moves a score. */
  function ClampShift(v: real): real { Clamp(v, 0.0, 1.0) - v }

  lemma RawAt(w: Weights, s: Scores, v: real)
    ensures Raw(w, s.(semantic := v)) == Raw(w, s) + Exchange(w.semantic, s.semantic, v)
  {
    assert w.semantic * v == w.semantic * s.semantic + w.semantic * (v - s.semantic);
  }

  /** The similarity part of a score comes in linearly, before the clamp. */
  lemma RawIsLinear(sc: Scorer, n: Node, turn: nat, twins: nat, dependents: nat, query: Vec, probe: Vec)
    ensures var a := Components(sc, n, turn, twins, dependents, query);
      var b := Components(sc, n, turn, twins, dependents, probe);
      Raw(sc.weights, b)
        == Raw(sc.weights, a) + Exchange(sc.weights.semantic, Semantic(sc, query, n), Semantic(sc, probe, n))
  {
    var a, b := Components(sc, n, turn, twins, dependents, query), Components(sc, n, turn, twins, dependents, probe);
    assert b == a.(semantic := b.semantic);
    RawAt(sc.weights, a, b.semantic);
  }

  /** The arithmetic of exchanging one similarity for another behind a clamp. */
  lemma ExchangeAgainstClamp(w: real, rawA: real, rawB: real, stale: real, now: real, hit: real)
    requires rawB == rawA + Exchange(w, stale, now) && hit == MaxReal(now, 0.0)
    ensures Exchanged(w, Clamp(rawA, 0.0, 1.0), stale, hit) - Clamp(rawB, 0.0, 1.0)
         == ClampShift(rawA) - ClampShift(rawB) + w * MaxReal(-now, 0.0)
  {
    assert w * (hit - stale) == w * (now - stale) + w * (hit - now);
    assert hit - now == MaxReal(-now, 0.0);
  }

  /** A hit scores the similarity of its node, with negative similarities cut off. */
  lemma HitScoreIs(sqrt: real -> real, live: Vectors, probe: Vec, id: NodeID)
    requires IsSquareRoot(sqrt) && id in live
    ensures HitFor(sqrt, live, probe, id).score == MaxReal(Cosine(sqrt, probe, live[id]), 0.0)
  {
    CosineBounds(sqrt, probe, live[id]);
  }

  /** The hit that a query of the index reports for a node. */
  ghost predicate IsHitOf(sc: Scorer, live: Vectors, probe: Vec, n: Node, h: Hit) {
    n.id in live && live[n.id] == n.embedding && h == HitFor(sc.sqrt, live, probe, n.id)
  }

  lemma HitAgainstSemantic(sc: Scorer, live: Vectors, probe: Vec, n: Node, h: Hit)
    requires IsSquareRoot(sc.sqrt) && |probe| > 0 && IsHitOf(sc, live, probe, n, h)
    ensures h.score == MaxReal(Semantic(sc, probe, n), 0.0)
  {
    HitScoreIs(sc.sqrt, live, probe, n.id);
  }

  /** The exact difference between the blended score of a hit and the score a re-scoring with the fresh
      query would give: what the two clamps move, and the similarity that was cut off below zero. */
  lemma ReblendAgainstRescore(sc: Scorer, live: Vectors, n: Node, turn: nat, twins: nat, dependents: nat,
                              query: Vec, probe: Vec, h: Hit, scores: map<NodeID, real>)
    requires IsSquareRoot(sc.sqrt) && |probe| > 0 && IsHitOf(sc, live, probe, n, h)
    requires n.scores == ScoreOf(sc, n, turn, twins, dependents, query) && n.id in scores && scores[n.id] == h.score
    ensures var a := Components(sc, n, turn, twins, dependents, query);
      var b := Components(sc, n, turn, twins, dependents, probe);
      Blended(sc.weights.semantic, scores, n) - ScoreOf(sc, n, turn, twins, dependents, probe).retention
        == ClampShift(Raw(sc.weights, a)) - ClampShift(Raw(sc.weights, b))
           + sc.weights.semantic * MaxReal(-Semantic(sc, probe, n), 0.0)
  {
    RawIsLinear(sc, n, turn, twins, dependents, query, probe);
    HitAgainstSemantic(sc, live, probe, n, h);
    var a, b := Components(sc, n, turn, twins, dependents, query), Components(sc, n, turn, twins, dependents, probe);
    ExchangeAgainstClamp(sc.weights.semantic, Raw(sc.weights, a), Raw(sc.weights, b), Semantic(sc, query, n),
                         Semantic(sc, probe, n), h.score);
  }

  /** With a similarity that is not negative and neither clamp active, re-blending is re-scoring. */
  lemma ReblendIsRescore(sc: Scorer, live: Vectors, n: Node, turn: nat, twins: nat, dependents: nat,
                         query: Vec, probe: Vec, h: Hit, scores: map<NodeID, real>)
    requires IsSquareRoot(sc.sqrt) && |probe| > 0 && IsHitOf(sc, live, probe, n, h)
    requires n.scores == ScoreOf(sc, n, turn, twins, dependents, query) && n.id in scores && scores[n.id] == h.score
    requires Semantic(sc, probe, n) >= 0.0
    requires 0.0 <= Raw(sc.weights, Components(sc, n, turn, twins, dependents, query)) <= 1.0
    requires 0.0 <= Raw(sc.weights, Components(sc, n, turn, twins, dependents, probe)) <= 1.0
    ensures Blended(sc.weights.semantic, scores, n) == ScoreOf(sc, n, turn, twins, dependents, probe).retention
  {
    ReblendAgainstRescore(sc, live, n, turn, twins, dependents, query, probe, h, scores);
  }

  lemma {:induction false} NoHitNoScore(hits: seq<Hit>, id: NodeID)
    ensures id in HitScores(hits) <==> id in HitIds(hits)
  {
    if hits != [] {
      NoHitNoScore(hits[..|hits| - 1], id);
      assert HitIds(hits) == HitIds(hits[..|hits| - 1]) + [hits[|hits| - 1].id];
    }
  }

  /** The effective score that a node is ranked by: its retention score, and if it was hit, the weighted
      difference between the hit and the similarity that the retention score was computed with. */
  lemma EffectiveScoreIs(weight: real, topK: seq<Hit>, nodes: seq<Node>, n: Node)
    requires weight > 0.0 && topK != [] && NoDup(HitIds(topK)) && NoDup(Ids(nodes)) && n in nodes
    ensures var effective := Effective(weight, topK, nodes);
      && effective.Some? && n.id in effective.value
      && (forall h :: h in topK && h.id == n.id ==>
            effective.value[n.id] == n.scores.retention + weight * (h.score - n.scores.semantic))
      && (n.id !in HitIds(topK) ==> effective.value[n.id] == n.scores.retention)
  {
    EffectiveAt(weight, HitScores(topK), nodes, n);
    NoHitNoScore(topK, n.id);
    forall h | h in topK && h.id == n.id
      ensures Blended(weight, HitScores(topK), n) == n.scores.retention + weight * (h.score - n.scores.semantic)
    {
      HitScoreAt(topK, h);
    }
  }

  /** The raw score of a node among `ids`, before the clamp, is within its range. */
  predicate Unclamped(sc: Scorer, nodes: Nodes, ids: set<NodeID>, id: NodeID, turn: nat, query: Vec) {
    id in nodes
    && var n := nodes[id];
       var twins, dependents := |Twins(sc, nodes, ids, Title(sc, n))|, |Dependents(nodes, ids, id)|;
       0.0 <= Raw(sc.weights, Components(sc, n, turn, twins, dependents, query)) <= 1.0
  }

  /** For nodes scored with one query, the effective score that a hit gets at compile time is the score
      that scoring all nodes again with the fresh query would give. */
  lemma EffectiveIsRescore(sc: Scorer, nodes: Nodes, ids: set<NodeID>, turn: nat, query: Vec, probe: Vec,
                           live: Vectors, topK: seq<Hit>, compiled: seq<Node>, h: Hit)
    requires IsSquareRoot(sc.sqrt) && |probe| > 0 && NoDup(HitIds(topK)) && NoDup(Ids(compiled))
    requires h in topK && h.id in ids && h.id in nodes && nodes[h.id].id == h.id && nodes[h.id] in compiled
    requires IsHitOf(sc, live, probe, nodes[h.id], h)
    requires nodes[h.id].scores == ScoreNode(sc, nodes, ids, h.id, turn, query)
    requires Semantic(sc, probe, nodes[h.id]) >= 0.0
    requires Unclamped(sc, nodes, ids, h.id, turn, query) && Unclamped(sc, nodes, ids, h.id, turn, probe)
    ensures var effective := EffectiveScores(sc.weights.semantic, HitScores(topK), compiled);
      h.id in effective && effective[h.id] == Rescored(sc, nodes, ids, turn, probe)[h.id].scores.retention
  {
    var n := nodes[h.id];
    HitScoreAt(topK, h);
    EffectiveAt(sc.weights.semantic, HitScores(topK), compiled, n);
    ReblendIsRescore(sc, live, n, turn, |Twins(sc, nodes, ids, Title(sc, n))|, |Dependents(nodes, ids, h.id)|,
                     query, probe, h, HitScores(topK));
  }
}
