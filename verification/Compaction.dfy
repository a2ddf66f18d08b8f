/** The compaction loop in closed form: what it has done depends on the set of parents it has
    visited, not on the order in which the map handed them out. */
module Compaction {
  import opened Collections
  import opened Domain
  import opened StateTree
  import opened GarbageCollector

  /** Groups as marking builds them: distinct known nodes under their own parent. */
  ghost predicate ProperGroups(base: Nodes, groups: Groups) {
    && (forall p :: p in groups ==> p in base && NoDup(groups[p]))
    && (forall p, id :: p in groups && id in groups[p] ==> id in base && base[id].parent == p)
  }

  /** What the compaction of `base` amounts to: the members of every group that may be folded away,
      and the branch node for each parent whose group is. */
  datatype Blueprint = Blueprint(members: Groups, plans: Nodes)

  function BlueprintOf(gc: Collector, base: Nodes, groups: Groups): Blueprint
  {
    Blueprint(
      map p | p in groups :: Compressible(base, groups[p]),
      map p | p in groups && BranchFor(gc, base, groups[p], p).Some? :: BranchFor(gc, base, groups[p], p).value)
  }

  ghost predicate Sound(base: Nodes, bp: Blueprint) {
    && bp.plans.Keys <= bp.members.Keys && bp.members.Keys <= base.Keys
    && (forall p :: p in bp.members ==> NoDup(bp.members[p]))
    && (forall p, id :: p in bp.members && id in bp.members[p] ==> id in base && base[id].parent == p)
    && (forall p :: p in bp.plans ==> bp.plans[p].parent == p)
  }

  /** The compressor's contract: it returns link-free branch nodes, with ids nobody else has. */
  ghost predicate Fresh(base: Nodes, bp: Blueprint) {
    && (forall p :: p in bp.plans ==> IsBranchNode(bp.plans[p]) && bp.plans[p].id !in base)
    && (forall p, q :: p in bp.plans && q in bp.plans && p != q ==> bp.plans[p].id != bp.plans[q].id)
  }

  ghost predicate FreshBranches(gc: Collector, base: Nodes, groups: Groups)
  {
    Fresh(base, BlueprintOf(gc, base, groups))
  }

  predicate Folds(base: Nodes, bp: Blueprint, fired: set<NodeID>, id: NodeID)
    requires id in base && fired <= bp.members.Keys
  {
    base[id].parent in fired && id in bp.members[base[id].parent]
  }

  /** The old nodes folded into a branch once the parents in `fired` have been compacted. */
  function Folded(base: Nodes, bp: Blueprint, fired: set<NodeID>): set<NodeID>
    requires fired <= bp.members.Keys
  {
    set id | id in base && Folds(base, bp, fired, id)
  }

  lemma MembersFold(base: Nodes, bp: Blueprint, fired: set<NodeID>, p: NodeID, id: NodeID)
    requires Sound(base, bp) && fired <= bp.plans.Keys && p in fired && id in bp.members[p]
    ensures id in Folded(base, bp, fired)
  {
    assert base[id].parent == p;
  }

  /** What has become of an old node by then. */
  function Touched(base: Nodes, bp: Blueprint, fired: set<NodeID>, id: NodeID): Node
    requires id in base && fired <= bp.plans.Keys <= bp.members.Keys
  {
    base[id].(
      status := if Folds(base, bp, fired, id) then Archived else base[id].status,
      children := if id in fired then Without(base[id].children, Elems(bp.members[id])) + [bp.plans[id].id]
                  else base[id].children)
  }

  function BranchIds(bp: Blueprint, fired: set<NodeID>): set<NodeID>
    requires fired <= bp.plans.Keys
  {
    set p | p in fired :: bp.plans[p].id
  }

  ghost predicate CompactedTo(base: Nodes, bp: Blueprint, fired: set<NodeID>, cur: Nodes)
    requires fired <= bp.plans.Keys <= bp.members.Keys
  {
    && cur.Keys == base.Keys + BranchIds(bp, fired)
    && (forall id :: id in base ==> cur[id] == Touched(base, bp, fired, id))
    && (forall p :: p in fired ==> cur[bp.plans[p].id] == bp.plans[p])
  }

  ghost function BranchTokens(bp: Blueprint, fired: set<NodeID>): int
    requires fired <= bp.plans.Keys
  {
    Sum(map p | p in fired :: bp.plans[p].tokens)
  }

  function Record(base: Nodes, bp: Blueprint, p: NodeID): BranchRecord
    requires p in bp.plans && p in bp.members
  {
    RecordOf(base, bp.members[p], bp.plans[p])
  }

  ghost predicate Recorded(base: Nodes, bp: Blueprint, fired: set<NodeID>, records: seq<BranchRecord>)
    requires bp.plans.Keys <= bp.members.Keys && fired <= bp.plans.Keys
  {
    NoDup(records) && Elems(records) == set p | p in fired :: Record(base, bp, p)
  }

  /** The loop's progress when it started with `freed` tokens and has compacted under `fired`. */
  ghost predicate Progress(base: Nodes, bp: Blueprint, fired: set<NodeID>, freed: int, w: Work)
    requires fired <= bp.plans.Keys <= bp.members.Keys
  {
    && CompactedTo(base, bp, fired, w.nodes)
    && w.freed == freed + TokensOn(base, Folded(base, bp, fired)) - BranchTokens(bp, fired)
    && Recorded(base, bp, fired, w.records) && RecordTokens(w.records) == BranchTokens(bp, fired)
  }

  // ---------------------------------------------------------------- what a round reads

  /** `cur` may differ from `base` on these nodes in child links only. */
  ghost predicate SameViews(base: Nodes, cur: Nodes, ids: seq<NodeID>) {
    forall i :: 0 <= i < |ids| ==> ids[i] in base && ids[i] in cur && View(cur[ids[i]]) == View(base[ids[i]])
  }

  lemma {:induction false} CompressibleMembers(nodes: Nodes, ids: seq<NodeID>)
    ensures forall id :: id in Compressible(nodes, ids) <==>
      id in ids && id in nodes && nodes[id].kind != NodeGoal && nodes[id].kind != NodeConstraint
    ensures NoDup(ids) ==> NoDup(Compressible(nodes, ids))
    ensures |Compressible(nodes, ids)| <= |ids|
  {
    if ids != [] {
      assert ids == ids[..|ids| - 1] + [ids[|ids| - 1]];
      CompressibleMembers(nodes, ids[..|ids| - 1]);
    }
  }

  lemma {:induction false} SameCompressible(base: Nodes, cur: Nodes, ids: seq<NodeID>)
    requires SameViews(base, cur, ids)
    ensures Compressible(cur, ids) == Compressible(base, ids)
  {
    if ids != [] {
      SameCompressible(base, cur, ids[..|ids| - 1]);
      var id := ids[|ids| - 1];
      assert View(cur[id]).kind == View(base[id]).kind;
    }
  }

  lemma {:induction false} SameSums(base: Nodes, cur: Nodes, ids: seq<NodeID>)
    requires SameViews(base, cur, ids)
    ensures SeqTokens(cur, ids) == SeqTokens(base, ids) && Views(cur, ids) == Views(base, ids)
  {
    if ids != [] {
      SameSums(base, cur, ids[..|ids| - 1]);
      var id := ids[|ids| - 1];
      assert View(cur[id]).tokens == View(base[id]).tokens;
    }
  }

  lemma SubViews(base: Nodes, cur: Nodes, ids: seq<NodeID>)
    requires SameViews(base, cur, ids)
    ensures SameViews(base, cur, Compressible(base, ids))
  {
    CompressibleMembers(base, ids);
    var c := Compressible(base, ids);
    forall i | 0 <= i < |c| ensures c[i] in base && c[i] in cur && View(cur[c[i]]) == View(base[c[i]]) {
      assert c[i] in ids;
    }
  }

  lemma SamePlan(gc: Collector, base: Nodes, cur: Nodes, ids: seq<NodeID>, p: NodeID)
    requires SameViews(base, cur, ids)
    ensures BranchFor(gc, cur, ids, p) == BranchFor(gc, base, ids, p)
  {
    SameCompressible(base, cur, ids);
    SubViews(base, cur, ids);
    assert AllResolved(cur, ids) == AllResolved(base, ids) by {
      forall id | id in ids ensures id in base && id in cur && cur[id].status == base[id].status {
        var i :| 0 <= i < |ids| && ids[i] == id;
        assert View(cur[ids[i]]).status == View(base[ids[i]]).status;
      }
    }
    SameSums(base, cur, Compressible(base, ids));
  }

  lemma {:induction false} SeqTokensIsSum(nodes: Nodes, ids: seq<NodeID>)
    requires NoDup(ids) && forall id :: id in ids ==> id in nodes
    ensures SeqTokens(nodes, ids) == TokensOn(nodes, Elems(ids))
  {
    if ids == [] {
      TokensNone(nodes, Elems(ids));
    } else {
      var front, id := ids[..|ids| - 1], ids[|ids| - 1];
      assert ids == front + [id];
      SeqTokensIsSum(nodes, front);
      EnumeratesSnoc(front, id);
      TokensInsert(nodes, Elems(front), id);
    }
  }

  lemma BlueprintIsSound(gc: Collector, base: Nodes, groups: Groups)
    requires ProperGroups(base, groups)
    ensures Sound(base, BlueprintOf(gc, base, groups))
  {
    forall p | p in groups
      ensures NoDup(Compressible(base, groups[p]))
      ensures forall id :: id in Compressible(base, groups[p]) ==> id in base && base[id].parent == p
    {
      CompressibleMembers(base, groups[p]);
    }
  }

  // ---------------------------------------------------------------- one round

  lemma StepViews(gc: Collector, base: Nodes, groups: Groups, fired: set<NodeID>, cur: Nodes, p: NodeID)
    requires ProperGroups(base, groups) && p in groups && p !in fired
    requires fired <= BlueprintOf(gc, base, groups).plans.Keys
    requires CompactedTo(base, BlueprintOf(gc, base, groups), fired, cur)
    ensures SameViews(base, cur, groups[p])
  {
    forall i | 0 <= i < |groups[p]|
      ensures groups[p][i] in base && groups[p][i] in cur && View(cur[groups[p][i]]) == View(base[groups[p][i]])
    {
      var id := groups[p][i];
      assert base[id].parent == p;
      assert cur[id] == Touched(base, BlueprintOf(gc, base, groups), fired, id);
    }
  }

  lemma StepOld(base: Nodes, bp: Blueprint, fired: set<NodeID>, cur: Nodes, p: NodeID, id: NodeID)
    requires Sound(base, bp) && fired <= bp.plans.Keys && p in bp.plans && p !in fired
    requires id in base && id in cur && p in cur && cur[id] == Touched(base, bp, fired, id)
    requires bp.plans[p].id !in base
    ensures Replaced(cur, p, bp.members[p], bp.plans[p])[id] == Touched(base, bp, fired + {p}, id)
  {
    assert Folds(base, bp, fired + {p}, id) <==> Folds(base, bp, fired, id) || id in Elems(bp.members[p]);
  }

  /** A stored branch node is left alone. */
  lemma StepBranch(base: Nodes, cur: Nodes, members: seq<NodeID>, c: Node, p: NodeID, b: Node)
    requires (forall id :: id in members ==> id in base) && p in base && b.id !in base && b.id in cur
      && cur[b.id] == b && c.id != b.id
    ensures b.id in Replaced(cur, p, members, c) && Replaced(cur, p, members, c)[b.id] == b
  {
    assert b.id !in Elems(members);
  }

  lemma ReplacedKeys(cur: Nodes, p: NodeID, members: seq<NodeID>, c: Node)
    requires p in cur
    ensures Replaced(cur, p, members, c).Keys == cur.Keys + {c.id} && Replaced(cur, p, members, c)[c.id].id == c.id
    ensures p != c.id ==> Replaced(cur, p, members, c)[c.id] == c
  {
  }

  lemma BranchIdsGrow(bp: Blueprint, fired: set<NodeID>, p: NodeID)
    requires fired <= bp.plans.Keys && p in bp.plans
    ensures BranchIds(bp, fired + {p}) == BranchIds(bp, fired) + {bp.plans[p].id}
  {
  }

  lemma StepBranches(base: Nodes, bp: Blueprint, fired: set<NodeID>, cur: Nodes, p: NodeID, cur': Nodes)
    requires Sound(base, bp) && Fresh(base, bp) && fired <= bp.plans.Keys && p in bp.plans && p !in fired
    requires forall q :: q in fired ==> bp.plans[q].id in cur && cur[bp.plans[q].id] == bp.plans[q]
    requires p in cur && cur' == Replaced(cur, p, bp.members[p], bp.plans[p])
    ensures forall q :: q in fired + {p} ==> bp.plans[q].id in cur' && cur'[bp.plans[q].id] == bp.plans[q]
  {
    ReplacedKeys(cur, p, bp.members[p], bp.plans[p]);
    forall q | q in fired ensures bp.plans[q].id in cur' && cur'[bp.plans[q].id] == bp.plans[q] {
      StepBranch(base, cur, bp.members[p], bp.plans[p], p, bp.plans[q]);
    }
  }

  lemma StepKeys(base: Nodes, bp: Blueprint, fired: set<NodeID>, cur: Nodes, p: NodeID, cur': Nodes)
    requires Sound(base, bp) && fired <= bp.plans.Keys && p in bp.plans
    requires cur.Keys == base.Keys + BranchIds(bp, fired) && cur' == Replaced(cur, p, bp.members[p], bp.plans[p])
    ensures cur'.Keys == base.Keys + BranchIds(bp, fired + {p})
  {
    assert p in base.Keys;
    ReplacedKeys(cur, p, bp.members[p], bp.plans[p]);
    BranchIdsGrow(bp, fired, p);
  }

  lemma StepOlds(base: Nodes, bp: Blueprint, fired: set<NodeID>, cur: Nodes, p: NodeID, cur': Nodes)
    requires Sound(base, bp) && fired <= bp.plans.Keys && p in bp.plans && p !in fired && bp.plans[p].id !in base
    requires base.Keys <= cur.Keys && base.Keys <= cur'.Keys && cur' == Replaced(cur, p, bp.members[p], bp.plans[p])
    requires forall id :: id in base ==> cur[id] == Touched(base, bp, fired, id)
    ensures forall id :: id in base ==> cur'[id] == Touched(base, bp, fired + {p}, id)
  {
    var after := fired + {p};
    assert after <= bp.plans.Keys <= bp.members.Keys;
    forall id | id in base ensures cur'[id] == Touched(base, bp, after, id) {
      StepOld(base, bp, fired, cur, p, id);
    }
  }

  lemma StepNodes(base: Nodes, bp: Blueprint, fired: set<NodeID>, cur: Nodes, p: NodeID, cur': Nodes)
    requires Sound(base, bp) && Fresh(base, bp) && fired <= bp.plans.Keys
    requires CompactedTo(base, bp, fired, cur) && p in bp.plans && p !in fired
    requires cur' == Replaced(cur, p, bp.members[p], bp.plans[p])
    ensures CompactedTo(base, bp, fired + {p}, cur')
  {
    StepKeys(base, bp, fired, cur, p, cur');
    StepOlds(base, bp, fired, cur, p, cur');
    StepBranches(base, bp, fired, cur, p, cur');
  }

  lemma StepTokens(base: Nodes, bp: Blueprint, fired: set<NodeID>, p: NodeID)
    requires Sound(base, bp) && fired <= bp.plans.Keys && p in bp.plans && p !in fired
    ensures TokensOn(base, Folded(base, bp, fired + {p}))
         == TokensOn(base, Folded(base, bp, fired)) + SeqTokens(base, bp.members[p])
  {
    FoldedGrows(base, bp, fired, p);
    TokensDisjoint(base, Folded(base, bp, fired), Elems(bp.members[p]));
    SeqTokensIsSum(base, bp.members[p]);
  }

  lemma FoldedGrows(base: Nodes, bp: Blueprint, fired: set<NodeID>, p: NodeID)
    requires Sound(base, bp) && fired <= bp.plans.Keys && p in bp.plans && p !in fired
    ensures Folded(base, bp, fired + {p}) == Folded(base, bp, fired) + Elems(bp.members[p])
    ensures Folded(base, bp, fired) !! Elems(bp.members[p])
  {
  }

  lemma StepBranchTokens(bp: Blueprint, fired: set<NodeID>, p: NodeID)
    requires fired <= bp.plans.Keys && p in bp.plans && p !in fired
    ensures BranchTokens(bp, fired + {p}) == BranchTokens(bp, fired) + bp.plans[p].tokens
  {
    var m := map q | q in fired :: bp.plans[q].tokens;
    assert (map q | q in fired + {p} :: bp.plans[q].tokens) == m[p := bp.plans[p].tokens];
    SumInsert(m, p, bp.plans[p].tokens);
  }

  lemma StepRecords(base: Nodes, bp: Blueprint, fired: set<NodeID>, records: seq<BranchRecord>, p: NodeID)
    requires Sound(base, bp) && fired <= bp.plans.Keys && p in bp.plans && p !in fired
    requires Recorded(base, bp, fired, records)
    ensures Recorded(base, bp, fired + {p}, records + [Record(base, bp, p)])
  {
    var r := Record(base, bp, p);
    forall q | q in fired ensures Record(base, bp, q) != r {
      assert Record(base, bp, q).parent == q && r.parent == p;
    }
    assert r in records <==> r in Elems(records);
    EnumeratesSnoc(records, r);
  }

  /** The parents among `done` whose group is compacted. */
  function Fired(bp: Blueprint, done: set<NodeID>): set<NodeID> {
    set p | p in done && p in bp.plans
  }

  /** A round of the loop as the blueprint foresees it. */
  function Foreseen(base: Nodes, bp: Blueprint, w: Work, p: NodeID): Work
    requires Sound(base, bp)
  {
    if p !in bp.plans then w
    else
      Work(Replaced(w.nodes, p, bp.members[p], bp.plans[p]),
           w.freed + SeqTokens(base, bp.members[p]) - bp.plans[p].tokens,
           w.records + [Record(base, bp, p)])
  }

  lemma PlannedRound(gc: Collector, groups: Groups, w: Work, p: NodeID, members: seq<NodeID>, c: Node)
    requires BranchFor(gc, w.nodes, GroupAt(groups, p), p) == Some(c)
      && Compressible(w.nodes, GroupAt(groups, p)) == members
    ensures CompactOne(gc, groups, w, p) == Work(Replaced(w.nodes, p, members, c),
      w.freed + SeqTokens(w.nodes, members) - c.tokens, w.records + [RecordOf(w.nodes, members, c)])
  {
  }

  lemma RoundIsForeseen(gc: Collector, base: Nodes, groups: Groups, bp: Blueprint, w: Work, p: NodeID)
    requires ProperGroups(base, groups) && p in groups
    requires bp == BlueprintOf(gc, base, groups) && Sound(base, bp)
    requires SameViews(base, w.nodes, groups[p])
    ensures CompactOne(gc, groups, w, p) == Foreseen(base, bp, w, p)
  {
    SamePlan(gc, base, w.nodes, groups[p], p);
    if p in bp.plans {
      SameCompressible(base, w.nodes, groups[p]);
      SameRecord(base, w.nodes, groups[p], bp.plans[p]);
      PlannedRound(gc, groups, w, p, bp.members[p], bp.plans[p]);
    }
  }

  lemma SameRecord(base: Nodes, cur: Nodes, ids: seq<NodeID>, c: Node)
    requires SameViews(base, cur, ids)
    ensures SeqTokens(cur, Compressible(base, ids)) == SeqTokens(base, Compressible(base, ids))
    ensures RecordOf(cur, Compressible(base, ids), c) == RecordOf(base, Compressible(base, ids), c)
  {
    SubViews(base, cur, ids);
    SameSums(base, cur, Compressible(base, ids));
  }

  lemma FiredRest(base: Nodes, bp: Blueprint, fired: set<NodeID>, freed: int, w: Work, p: NodeID)
    requires Sound(base, bp) && fired <= bp.plans.Keys && p in bp.plans && p !in fired
    requires w.freed == freed + TokensOn(base, Folded(base, bp, fired)) - BranchTokens(bp, fired)
    requires Recorded(base, bp, fired, w.records) && RecordTokens(w.records) == BranchTokens(bp, fired)
    ensures var w' := Foreseen(base, bp, w, p);
      w'.freed == freed + TokensOn(base, Folded(base, bp, fired + {p})) - BranchTokens(bp, fired + {p})
      && Recorded(base, bp, fired + {p}, w'.records) && RecordTokens(w'.records) == BranchTokens(bp, fired + {p})
  {
    StepTokens(base, bp, fired, p);
    StepBranchTokens(bp, fired, p);
    StepRecords(base, bp, fired, w.records, p);
    assert (w.records + [Record(base, bp, p)])[..|w.records|] == w.records;
  }

  lemma FiredProgress(base: Nodes, bp: Blueprint, fired: set<NodeID>, freed: int, w: Work, p: NodeID)
    requires Sound(base, bp) && Fresh(base, bp) && fired <= bp.plans.Keys && p in bp.plans && p !in fired
    requires Progress(base, bp, fired, freed, w)
    ensures Progress(base, bp, fired + {p}, freed, Foreseen(base, bp, w, p))
  {
    StepNodes(base, bp, fired, w.nodes, p, Foreseen(base, bp, w, p).nodes);
    FiredRest(base, bp, fired, freed, w, p);
  }

  /** One round: the progress grows by `p` if its group is compacted, and stays otherwise. */
  lemma RoundProgress(gc: Collector, base: Nodes, groups: Groups, bp: Blueprint, fired: set<NodeID>, freed: int,
                      w: Work, p: NodeID)
    requires ProperGroups(base, groups) && p in groups && p !in fired
    requires bp == BlueprintOf(gc, base, groups) && Sound(base, bp) && Fresh(base, bp) && fired <= bp.plans.Keys
    requires Progress(base, bp, fired, freed, w)
    ensures p in bp.plans ==> Progress(base, bp, fired + {p}, freed, CompactOne(gc, groups, w, p))
    ensures p !in bp.plans ==> CompactOne(gc, groups, w, p) == w
  {
    StepViews(gc, base, groups, fired, w.nodes, p);
    RoundIsForeseen(gc, base, groups, bp, w, p);
    if p in bp.plans {
      FiredProgress(base, bp, fired, freed, w, p);
    }
  }

  lemma ProgressStart(base: Nodes, bp: Blueprint, freed: int)
    requires Sound(base, bp)
    ensures Progress(base, bp, {}, freed, Work(base, freed, []))
  {
    TokensNone(base, Folded(base, bp, {}));
    NoBranchTokens(bp, {});
  }

  lemma NoBranchTokens(bp: Blueprint, fired: set<NodeID>)
    requires fired <= bp.plans.Keys
    ensures fired == {} ==> BranchTokens(bp, fired) == 0
  {
    var m := map p | p in fired :: bp.plans[p].tokens;
    assert m.Keys == fired;
  }

  /** The parents compacted so far, as the loop meets them. */
  function FiredBy(bp: Blueprint, ps: seq<NodeID>): (fired: set<NodeID>)
    ensures fired <= bp.plans.Keys
  {
    if ps == [] then {}
    else
      var p := ps[|ps| - 1];
      if p in bp.plans then FiredBy(bp, ps[..|ps| - 1]) + {p} else FiredBy(bp, ps[..|ps| - 1])
  }

  lemma {:induction false} FiredByIsFired(bp: Blueprint, ps: seq<NodeID>)
    ensures FiredBy(bp, ps) == Fired(bp, Elems(ps))
  {
    if ps != [] {
      assert ps == ps[..|ps| - 1] + [ps[|ps| - 1]];
      FiredByIsFired(bp, ps[..|ps| - 1]);
    }
  }

  /** The loop, whatever order `ps` it takes. */
  lemma {:induction false} CompactAllProgress(gc: Collector, base: Nodes, groups: Groups, bp: Blueprint, freed: int,
                                              ps: seq<NodeID>)
    requires ProperGroups(base, groups) && bp == BlueprintOf(gc, base, groups) && Sound(base, bp) && Fresh(base, bp)
    requires NoDup(ps) && forall i :: 0 <= i < |ps| ==> ps[i] in groups
    ensures Progress(base, bp, FiredBy(bp, ps), freed, CompactAll(gc, groups, Work(base, freed, []), ps))
  {
    if ps == [] {
      ProgressStart(base, bp, freed);
    } else {
      var front, p := ps[..|ps| - 1], ps[|ps| - 1];
      CompactAllProgress(gc, base, groups, bp, freed, front);
      assert p !in FiredBy(bp, front) by { FiredByIsFired(bp, front); }
      RoundProgress(gc, base, groups, bp, FiredBy(bp, front), freed,
        CompactAll(gc, groups, Work(base, freed, []), front), p);
    }
  }

  lemma CompactedToIsUnique(base: Nodes, bp: Blueprint, fired: set<NodeID>, a: Nodes, b: Nodes)
    requires fired <= bp.plans.Keys <= bp.members.Keys
    requires CompactedTo(base, bp, fired, a) && CompactedTo(base, bp, fired, b)
    ensures a == b
  {
    forall id | id in a ensures a[id] == b[id] {
      if id !in base {
        assert id in BranchIds(bp, fired);
        var p :| p in fired && bp.plans[p].id == id;
      }
    }
  }

  /** Confluence: two orders of the same parents give the same nodes, the same number of freed tokens
      and the same records up to order. */
  lemma CompactionIsConfluent(gc: Collector, base: Nodes, groups: Groups, freed: int, ps: seq<NodeID>, qs: seq<NodeID>)
    requires ProperGroups(base, groups) && FreshBranches(gc, base, groups)
    requires Enumerates(ps, groups.Keys) && Enumerates(qs, groups.Keys)
    ensures (forall i :: 0 <= i < |ps| ==> ps[i] in groups) && (forall i :: 0 <= i < |qs| ==> qs[i] in groups)
    ensures var a := CompactAll(gc, groups, Work(base, freed, []), ps);
      var b := CompactAll(gc, groups, Work(base, freed, []), qs);
      a.nodes == b.nodes && a.freed == b.freed && multiset(a.records) == multiset(b.records)
  {
    assert forall i :: 0 <= i < |ps| ==> ps[i] in Elems(ps);
    assert forall i :: 0 <= i < |qs| ==> qs[i] in Elems(qs);
    var bp := BlueprintOf(gc, base, groups);
    BlueprintIsSound(gc, base, groups);
    CompactAllProgress(gc, base, groups, bp, freed, ps);
    CompactAllProgress(gc, base, groups, bp, freed, qs);
    var a, b := CompactAll(gc, groups, Work(base, freed, []), ps), CompactAll(gc, groups, Work(base, freed, []), qs);
    FiredByIsFired(bp, ps);
    FiredByIsFired(bp, qs);
    ProgressDecides(base, bp, Fired(bp, groups.Keys), freed, a, b);
  }

  lemma ProgressDecides(base: Nodes, bp: Blueprint, fired: set<NodeID>, freed: int, a: Work, b: Work)
    requires Sound(base, bp) && fired <= bp.plans.Keys
    requires Progress(base, bp, fired, freed, a) && Progress(base, bp, fired, freed, b)
    ensures a.nodes == b.nodes && a.freed == b.freed && multiset(a.records) == multiset(b.records)
  {
    SameElemsSameMultiset(a.records, b.records);
    CompactedToIsUnique(base, bp, fired, a.nodes, b.nodes);
  }
}
