/** What one garbage collection run does to any well-formed tree. */
module RunLaws {
  import opened Collections
  import opened Domain
  import opened Facts
  import opened StateTree
  import opened Scoring
  import opened GarbageCollector
  import opened Compaction

  /** The nodes folded into branches, read off the durable records. */
  function FoldedBy(out: Outcome): set<NodeID> {
    set r, id | r in out.records && id in r.originals :: id
  }

  function BlueprintFor(r: Run): Blueprint {
    BlueprintOf(r.gc, SweptNodes(r), GroupsOf(r))
  }

  /** A run of a well-formed tree whose compressor returns link-free branches under new ids. */
  ghost predicate IsRun(r: Run) {
    WellFormed(r.st) && AreOrders(r) && Fresh(SweptNodes(r), BlueprintFor(r))
  }

  // ---------------------------------------------------------------- from marking to groups

  lemma Marking(r: Run)
    requires AreOrders(r)
    ensures SameButScores(r.st.nodes, MarkedNodes(r))
    ensures forall id :: id in r.order <==> id in r.st.nodes && r.st.nodes[id].status == Active
    ensures NoDup(r.order) && NoDup(SweepOf(r))
    ensures forall id :: id in SweepOf(r) <==>
      id in r.st.nodes && r.st.nodes[id].status == Active && Sweepable(r.gc.policy, MarkedNodes(r)[id])
  {
    assert forall id :: id in r.order <==> id in Elems(r.order);
    SweepListMembers(r.gc.policy, MarkedNodes(r), r.order);
  }

  /** The groups: the active nodes that are not deferred, under their parents. */
  lemma Grouping(r: Run, p: NodeID)
    requires AreOrders(r)
    ensures p in GroupsOf(r) ==> p != NoID && GroupsOf(r)[p] != [] && NoDup(GroupsOf(r)[p])
    ensures p in GroupsOf(r) ==> forall id :: id in GroupsOf(r)[p] <==>
      id in r.st.nodes && r.st.nodes[id].status == Active && InGroup(r.st.nodes[id], p)
  {
    Marking(r);
    GroupOfMembers(MarkedNodes(r), r.order, p);
    if p in GroupsOf(r) {
      GroupsAreNonEmpty(MarkedNodes(r), r.order, p);
    }
  }

  lemma GroupsAreProper(r: Run)
    requires WellFormed(r.st) && AreOrders(r)
    ensures ProperGroups(SweptNodes(r), GroupsOf(r))
  {
    Marking(r);
    forall p | p in GroupsOf(r)
      ensures p in r.st.nodes && NoDup(GroupsOf(r)[p])
      ensures forall id :: id in GroupsOf(r)[p] ==> id in r.st.nodes && r.st.nodes[id].parent == p
    {
      Grouping(r, p);
      var id := GroupsOf(r)[p][0];
      assert id in GroupsOf(r)[p];
      assert GoodNode(r.st.nodes, r.st.turns, id);
    }
  }

  // ---------------------------------------------------------------- the closed form of a run

  lemma Closed(r: Run)
    requires IsRun(r)
    ensures Sound(SweptNodes(r), BlueprintFor(r))
    ensures Progress(SweptNodes(r), BlueprintFor(r), BlueprintFor(r).plans.Keys,
              SeqTokens(MarkedNodes(r), SweepOf(r)), Work(Result(r).nodes, Result(r).freed, Result(r).records))
  {
    GroupsAreProper(r);
    var base, groups, bp := SweptNodes(r), GroupsOf(r), BlueprintFor(r);
    BlueprintIsSound(r.gc, base, groups);
    assert forall i :: 0 <= i < |r.ps| ==> r.ps[i] in Elems(r.ps);
    CompactAllProgress(r.gc, base, groups, bp, SeqTokens(MarkedNodes(r), SweepOf(r)), r.ps);
    FiredByIsFired(bp, r.ps);
    assert Fired(bp, groups.Keys) == bp.plans.Keys;
  }

  lemma FoldedByRecords(base: Nodes, bp: Blueprint, out: Outcome)
    requires Sound(base, bp) && Recorded(base, bp, bp.plans.Keys, out.records)
    ensures FoldedBy(out) == Folded(base, bp, bp.plans.Keys)
  {
    forall id | id in Folded(base, bp, bp.plans.Keys) ensures id in FoldedBy(out) {
      var p := base[id].parent;
      assert Record(base, bp, p) in Elems(out.records);
      assert id in Record(base, bp, p).originals;
    }
    forall id | id in FoldedBy(out) ensures id in Folded(base, bp, bp.plans.Keys) {
      var rec :| rec in out.records && id in rec.originals;
      OriginalsAreFolded(base, bp, out.records, rec, id);
    }
  }

  lemma OriginalsAreFolded(base: Nodes, bp: Blueprint, records: seq<BranchRecord>, rec: BranchRecord, id: NodeID)
    requires Sound(base, bp) && Recorded(base, bp, bp.plans.Keys, records)
    requires rec in records && id in rec.originals
    ensures id in Folded(base, bp, bp.plans.Keys)
  {
    assert rec in Elems(records);
    var p :| p in bp.plans.Keys && rec == Record(base, bp, p);
  }

  /** Everything folded was an active, undeferred node under the parent of its record. */
  lemma FoldedWereActive(r: Run, id: NodeID)
    requires IsRun(r) && id in FoldedBy(Result(r))
    ensures id in ActiveIds(r.st.nodes) && !Deferred(r.st.nodes[id])
    ensures r.st.nodes[id].kind != NodeGoal && r.st.nodes[id].kind != NodeConstraint
  {
    Closed(r);
    var base, bp := SweptNodes(r), BlueprintFor(r);
    FoldedByRecords(base, bp, Result(r));
    var p := base[id].parent;
    Marking(r);
    Grouping(r, p);
    CompressibleMembers(base, GroupsOf(r)[p]);
  }

  /** A run changes an old node in its scores, its child links and its status only. The status changes
      for the swept and the folded nodes, and to archived. */
  predicate Evolved(m: Node, n: Node) {
    n == m.(status := n.status, children := n.children, scores := n.scores)
  }

  lemma OldNodesEvolve(r: Run, id: NodeID)
    requires IsRun(r) && id in r.st.nodes
    ensures id in Result(r).nodes && Evolved(r.st.nodes[id], Result(r).nodes[id])
    ensures Result(r).nodes[id].status ==
      if id in Result(r).swept || id in FoldedBy(Result(r)) then Archived else r.st.nodes[id].status
  {
    Closed(r);
    Marking(r);
    FoldedByRecords(SweptNodes(r), BlueprintFor(r), Result(r));
    assert Result(r).nodes[id] == Touched(SweptNodes(r), BlueprintFor(r), BlueprintFor(r).plans.Keys, id);
  }

  lemma NewNodesAreBranches(r: Run, id: NodeID)
    requires IsRun(r) && id in Result(r).nodes && id !in r.st.nodes
    ensures IsBranchNode(Result(r).nodes[id]) && Result(r).nodes[id].id == id
    ensures Result(r).nodes[id].parent in r.st.nodes && Result(r).nodes[id].parent in BlueprintFor(r).plans
  {
    Closed(r);
    Marking(r);
    var bp := BlueprintFor(r);
    assert id in BranchIds(bp, bp.plans.Keys);
    var p :| p in bp.plans.Keys && bp.plans[p].id == id;
  }

  // ---------------------------------------------------------------- laws

  lemma StillActive(r: Run, id: NodeID)
    requires IsRun(r)
    ensures id in ActiveIds(Result(r).nodes) <==>
      id in ActiveIds(r.st.nodes) && id !in Result(r).swept && id !in FoldedBy(Result(r))
  {
    if id in r.st.nodes {
      OldNodesEvolve(r, id);
    } else if id in Result(r).nodes {
      NewNodesAreBranches(r, id);
    }
  }

  /** The active set after a run: what it was, less the swept and the folded nodes. */
  lemma ActiveAfterRun(r: Run)
    requires IsRun(r)
    ensures Elems(Result(r).swept) + FoldedBy(Result(r)) <= ActiveIds(r.st.nodes)
    ensures ActiveIds(Result(r).nodes) == ActiveIds(r.st.nodes) - (Elems(Result(r).swept) + FoldedBy(Result(r)))
  {
    forall id
      ensures id in Elems(Result(r).swept) || id in FoldedBy(Result(r)) ==> id in ActiveIds(r.st.nodes)
      ensures id in ActiveIds(Result(r).nodes) <==>
        id in ActiveIds(r.st.nodes) && id !in Elems(Result(r).swept) && id !in FoldedBy(Result(r))
    {
      StillActive(r, id);
      GoneWereActive(r, id);
    }
    SetMinus(ActiveIds(r.st.nodes), Elems(Result(r).swept), FoldedBy(Result(r)), ActiveIds(Result(r).nodes));
  }

  lemma GoneWereActive(r: Run, id: NodeID)
    requires IsRun(r)
    ensures id in Elems(Result(r).swept) || id in FoldedBy(Result(r)) ==> id in ActiveIds(r.st.nodes)
  {
    Marking(r);
    if id in FoldedBy(Result(r)) {
      FoldedWereActive(r, id);
    }
  }

  lemma SetMinus<T>(before: set<T>, a: set<T>, b: set<T>, after: set<T>)
    requires forall x :: x in a || x in b ==> x in before
    requires forall x :: x in after <==> x in before && x !in a && x !in b
    ensures a + b <= before && after == before - (a + b)
  {
  }

  /** `TokensFreed` counts a node twice that is both swept and folded, and is reduced by the tokens of
      the new branches. */
  lemma TokensFreedIs(r: Run)
    requires IsRun(r)
    ensures var s, c := Elems(Result(r).swept), FoldedBy(Result(r));
      Result(r).freed == TokensOn(r.st.nodes, s + c) + TokensOn(r.st.nodes, s * c) - RecordTokens(Result(r).records)
  {
    Closed(r);
    Marking(r);
    ActiveAfterRun(r);
    var s, c := Elems(Result(r).swept), FoldedBy(Result(r));
    FoldedByRecords(SweptNodes(r), BlueprintFor(r), Result(r));
    SeqTokensIsSum(MarkedNodes(r), SweepOf(r));
    TokensAgree(r.st.nodes, MarkedNodes(r), s);
    TokensAgree(r.st.nodes, SweptNodes(r), c);
    TokensUnion(r.st.nodes, s, c);
  }

  /** The active tokens drop by the tokens of the swept or folded nodes. So `TokensFreed` is that
      drop exactly if the nodes both swept and folded weigh as much as the new branches. */
  lemma FreedVersusDrop(r: Run)
    requires IsRun(r)
    ensures var s, c := Elems(Result(r).swept), FoldedBy(Result(r));
      && ActiveTokens(r.st.nodes) - ActiveTokens(Result(r).nodes) == TokensOn(r.st.nodes, s + c)
      && (Result(r).freed == ActiveTokens(r.st.nodes) - ActiveTokens(Result(r).nodes)
          <==> TokensOn(r.st.nodes, s * c) == RecordTokens(Result(r).records))
  {
    TokensFreedIs(r);
    ActiveAfterRun(r);
    var gone := Elems(Result(r).swept) + FoldedBy(Result(r));
    var left := ActiveIds(Result(r).nodes);
    TokensDisjoint(r.st.nodes, left, gone);
    assert left + gone == ActiveIds(r.st.nodes);
    forall id | id in left
      ensures id in r.st.nodes && id in Result(r).nodes && r.st.nodes[id].tokens == Result(r).nodes[id].tokens
    {
      OldNodesEvolve(r, id);
    }
    TokensAgree(r.st.nodes, Result(r).nodes, left);
  }

  /** Pinning, one run: a node that carries facts or decisions keeps its status and what it carries. */
  lemma RunKeepsPinned(r: Run, id: NodeID)
    requires IsRun(r) && id in r.st.nodes && Deferred(r.st.nodes[id])
    ensures id in Result(r).nodes && Deferred(Result(r).nodes[id])
    ensures Result(r).nodes[id].status == r.st.nodes[id].status
  {
    OldNodesEvolve(r, id);
    Marking(r);
    if id in FoldedBy(Result(r)) {
      FoldedWereActive(r, id);
    }
  }

  lemma RunExtends(r: Run)
    requires IsRun(r)
    ensures Extends(r.st.nodes, Result(r).nodes)
  {
    forall id | id in r.st.nodes ensures id in Result(r).nodes && SameShape(r.st.nodes[id], Result(r).nodes[id]) {
      OldNodesEvolve(r, id);
    }
  }

  lemma OldNodeStaysGood(r: Run, id: NodeID)
    requires IsRun(r) && id in r.st.nodes && Extends(r.st.nodes, Result(r).nodes)
    ensures GoodNode(Result(r).nodes, r.st.turns, id)
  {
    if id in BlueprintFor(r).plans {
      BranchGoesUnder(r, id);
    } else {
      Closed(r);
      Marking(r);
      assert Result(r).nodes[id] == Touched(SweptNodes(r), BlueprintFor(r), BlueprintFor(r).plans.Keys, id);
      GoodNodeStays(r.st.nodes, Result(r).nodes, r.st.turns, id);
    }
  }

  lemma NewNodeIsGood(r: Run, id: NodeID)
    requires IsRun(r) && id in Result(r).nodes && id !in r.st.nodes && Extends(r.st.nodes, Result(r).nodes)
    ensures GoodNode(Result(r).nodes, r.st.turns, id)
  {
    NewNodesAreBranches(r, id);
    ParentsAreNoBranches(r, Result(r).nodes[id].parent);
    assert SameShape(r.st.nodes[Result(r).nodes[id].parent], Result(r).nodes[Result(r).nodes[id].parent]);
  }

  /** A run of a well-formed tree leaves a well-formed tree. */
  lemma RunKeepsWellFormed(r: Run)
    requires IsRun(r)
    ensures WellFormed(r.st.(nodes := Result(r).nodes))
  {
    RunExtends(r);
    forall id | id in Result(r).nodes ensures GoodNode(Result(r).nodes, r.st.turns, id) {
      if id in r.st.nodes {
        OldNodeStaysGood(r, id);
      } else {
        NewNodeIsGood(r, id);
      }
    }
  }

  lemma ParentsAreNoBranches(r: Run, p: NodeID)
    requires IsRun(r) && p in BlueprintFor(r).plans
    ensures p in r.st.nodes && r.st.nodes[p].kind != NodeCompressedBranch && p != NoID
  {
    GroupsAreProper(r);
    Grouping(r, p);
    Marking(r);
    var id := GroupsOf(r)[p][0];
    assert id in GroupsOf(r)[p];
    assert GoodNode(r.st.nodes, r.st.turns, id);
  }

  lemma BranchGoesUnder(r: Run, p: NodeID)
    requires IsRun(r) && p in BlueprintFor(r).plans && p in r.st.nodes
    requires Extends(r.st.nodes, Result(r).nodes)
    ensures p in Result(r).nodes && GoodNode(Result(r).nodes, r.st.turns, p)
  {
    Closed(r);
    Marking(r);
    ParentsAreNoBranches(r, p);
    var a, b, bp := r.st.nodes, Result(r).nodes, BlueprintFor(r);
    var c := bp.plans[p].id;
    assert GoodNode(a, r.st.turns, p);
    assert b[p] == Touched(SweptNodes(r), bp, bp.plans.Keys, p);
    var kept := Without(a[p].children, Elems(bp.members[p]));
    WithoutMembers(a[p].children, Elems(bp.members[p]));
    StrangersAreNoChildren(r.st, p, c);
    assert b[c] == bp.plans[p];
    GoodNodeLinks(a, b, r.st.turns, p, kept, c);
  }

  /** Confluence: the order in which the parents are visited does not matter. */
  lemma RunIsConfluent(r: Run, qs: seq<NodeID>)
    requires IsRun(r) && Enumerates(qs, GroupsOf(r).Keys)
    ensures var a, b := Result(r), Result(r.(ps := qs));
      a.nodes == b.nodes && a.freed == b.freed && a.swept == b.swept && multiset(a.records) == multiset(b.records)
  {
    GroupsAreProper(r);
    CompactionIsConfluent(r.gc, SweptNodes(r), GroupsOf(r), SeqTokens(MarkedNodes(r), SweepOf(r)), r.ps, qs);
  }

  // ---------------------------------------------------------------- what reaches the compressor

  predicate Bare(n: Node) {
    !Deferred(n) && n.kind != NodeConstraint
  }

  lemma {:induction false} ViewsAreBare(nodes: Nodes, ids: seq<NodeID>)
    requires forall id :: id in ids && id in nodes ==> Bare(nodes[id])
    ensures forall n :: n in Views(nodes, ids) ==> Bare(n)
  {
    if ids != [] {
      assert ids[|ids| - 1] in ids;
      ViewsAreBare(nodes, ids[..|ids| - 1]);
    }
  }

  lemma {:induction false} NothingToMerge(views: seq<Node>)
    requires forall n :: n in views ==> Bare(n)
    ensures AllFacts(views) == [] && AllDecisions(views) == [] && ConstraintSummaries(views) == []
  {
    if views != [] {
      assert views[|views| - 1] in views;
      NothingToMerge(views[..|views| - 1]);
    }
  }

  lemma PlannedViewsAreBare(r: Run, p: NodeID)
    requires IsRun(r) && p in BlueprintFor(r).plans
    ensures forall n :: n in Views(SweptNodes(r), BlueprintFor(r).members[p]) ==> Bare(n)
  {
    forall id | id in BlueprintFor(r).members[p] && id in SweptNodes(r) ensures Bare(SweptNodes(r)[id]) {
      PlannedAreBare(r, p, id);
    }
    ViewsAreBare(SweptNodes(r), BlueprintFor(r).members[p]);
  }

  lemma RecordsHavePlans(r: Run, rec: BranchRecord) returns (p: NodeID)
    requires IsRun(r) && rec in Result(r).records
    ensures p in BlueprintFor(r).plans && p in BlueprintFor(r).members
      && rec == Record(SweptNodes(r), BlueprintFor(r), p)
  {
    Closed(r);
    assert rec in Elems(Result(r).records);
    p :| p in BlueprintFor(r).plans.Keys && rec == Record(SweptNodes(r), BlueprintFor(r), p);
  }

  /** Nodes with facts or decisions never reach a group, and constraints are filtered out of it. So no
      compressor is ever handed a fact, a decision or a constraint, and no branch record keeps one. */
  lemma BranchesCarryNoFacts(r: Run, rec: BranchRecord)
    requires IsRun(r) && rec in Result(r).records
    ensures AllFacts(Views(SweptNodes(r), rec.originals)) == []
    ensures AllDecisions(Views(SweptNodes(r), rec.originals)) == []
    ensures rec.constraints == []
  {
    var p := RecordsHavePlans(r, rec);
    PlannedViewsAreBare(r, p);
    NothingToMerge(Views(SweptNodes(r), rec.originals));
  }

  lemma PlannedAreBare(r: Run, p: NodeID, id: NodeID)
    requires IsRun(r) && p in BlueprintFor(r).plans && id in BlueprintFor(r).members[p] && id in SweptNodes(r)
    ensures Bare(SweptNodes(r)[id])
  {
    Grouping(r, p);
    Marking(r);
    CompressibleMembers(SweptNodes(r), GroupsOf(r)[p]);
  }
}
