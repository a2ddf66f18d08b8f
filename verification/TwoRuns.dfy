/** Two garbage collection runs compared: of the same tree in different orders, and one right after the
    other. */
module TwoRuns {
  import opened Collections
  import opened Domain
  import opened VectorMath
  import opened Scoring
  import opened GarbageCollector
  import opened Compaction
  import opened RunLaws

  /** No active node is listed as a dependency by another one. `AddNode` and the compressors leave
      all dependency lists empty. */
  ghost predicate Independent(nodes: Nodes) {
    forall id :: id in ActiveIds(nodes) ==> Dependents(nodes, ActiveIds(nodes), id) == {}
  }

  ghost predicate NeverFails(gc: Collector) {
    forall ns :: gc.compress(ns).Some?
  }

  /** `b` follows `a` at the same turn with the same query vector. */
  ghost predicate Repeats(a: Run, b: Run) {
    && IsRun(a) && AreOrders(b)
    && b.gc == a.gc && b.query == a.query && b.st == a.st.(nodes := Result(a).nodes)
  }

  lemma ScoreOfEvolved(sc: Scorer, m: Node, n: Node, turn: nat, twins: nat, dependents: nat, query: Vec)
    requires Evolved(m, n) && m.status == n.status
    ensures ScoreOf(sc, m, turn, twins, dependents, query) == ScoreOf(sc, n, turn, twins, dependents, query)
  {
  }

  lemma Survivor(a: Run, b: Run, id: NodeID)
    requires Repeats(a, b) && id in ActiveIds(b.st.nodes)
    ensures id in ActiveIds(a.st.nodes) && Evolved(a.st.nodes[id], b.st.nodes[id])
    ensures id !in SweepOf(a) && id !in FoldedBy(Result(a))
  {
    ActiveAfterRun(a);
    OldNodesEvolve(a, id);
  }

  lemma FewerTwins(a: Run, b: Run, title: string)
    requires Repeats(a, b)
    ensures |Twins(b.gc.scorer, b.st.nodes, ActiveIds(b.st.nodes), title)|
         <= |Twins(a.gc.scorer, a.st.nodes, ActiveIds(a.st.nodes), title)|
  {
    var tb := Twins(b.gc.scorer, b.st.nodes, ActiveIds(b.st.nodes), title);
    var ta := Twins(a.gc.scorer, a.st.nodes, ActiveIds(a.st.nodes), title);
    forall id | id in tb ensures id in ta {
      Survivor(a, b, id);
    }
    SubsetSize(tb, ta);
  }

  lemma NoDependents(a: Run, b: Run, id: NodeID)
    requires Repeats(a, b) && Independent(a.st.nodes) && id in ActiveIds(b.st.nodes)
    ensures Dependents(a.st.nodes, ActiveIds(a.st.nodes), id) == {}
    ensures Dependents(b.st.nodes, ActiveIds(b.st.nodes), id) == {}
  {
    Survivor(a, b, id);
    forall o ensures o !in Dependents(b.st.nodes, ActiveIds(b.st.nodes), id) {
      if o in ActiveIds(b.st.nodes) {
        Survivor(a, b, o);
        assert o !in Dependents(a.st.nodes, ActiveIds(a.st.nodes), id);
      }
    }
  }

  /** The survivors of the first run score no lower in the second. */
  lemma SurvivorsScoreNoLower(a: Run, b: Run, id: NodeID)
    requires Repeats(a, b) && Independent(a.st.nodes) && a.gc.scorer.weights.redundancyPen >= 0.0
    requires id in ActiveIds(b.st.nodes)
    ensures id in MarkedNodes(a) && id in MarkedNodes(b)
    ensures MarkedNodes(b)[id].scores.retention >= MarkedNodes(a)[id].scores.retention
  {
    Survivor(a, b, id);
    NoDependents(a, b, id);
    var sc, m, n := a.gc.scorer, a.st.nodes[id], b.st.nodes[id];
    FewerTwins(a, b, Title(sc, m));
    var many := |Twins(sc, a.st.nodes, ActiveIds(a.st.nodes), Title(sc, m))|;
    var few := |Twins(sc, b.st.nodes, ActiveIds(b.st.nodes), Title(sc, n))|;
    FewerTwinsScoreHigher(sc, m, a.st.turns, few, many, 0, a.query);
    ScoreOfEvolved(sc, m, n, a.st.turns, few, 0, a.query);
  }

  /** Who scores no lower is swept no sooner. */
  lemma HigherScoresStay(policy: Policy, m: Node, n: Node)
    requires n.facts == m.facts && n.decisions == m.decisions && n.kind == m.kind
    requires n.scores.retention >= m.scores.retention && Sweepable(policy, n)
    ensures Sweepable(policy, m)
  {
  }

  lemma NotSweptAgain(a: Run, b: Run, id: NodeID)
    requires Repeats(a, b) && Independent(a.st.nodes) && a.gc.scorer.weights.redundancyPen >= 0.0
    requires id in ActiveIds(b.st.nodes)
    ensures id in MarkedNodes(b) && !Sweepable(b.gc.policy, MarkedNodes(b)[id])
  {
    Marking(a);
    Survivor(a, b, id);
    SurvivorsScoreNoLower(a, b, id);
    if Sweepable(b.gc.policy, MarkedNodes(b)[id]) {
      HigherScoresStay(b.gc.policy, MarkedNodes(a)[id], MarkedNodes(b)[id]);
    }
  }

  lemma NothingToSweep(a: Run, b: Run)
    requires Repeats(a, b) && Independent(a.st.nodes) && a.gc.scorer.weights.redundancyPen >= 0.0
    ensures SweepOf(b) == []
  {
    Marking(b);
    forall id ensures id !in SweepOf(b) {
      if id in ActiveIds(b.st.nodes) {
        NotSweptAgain(a, b, id);
      }
    }
    if SweepOf(b) != [] {
      HasMember(SweepOf(b));
    }
  }

  /** A group of the second run is what is left of the same group of the first. */
  lemma GroupsShrink(a: Run, b: Run, p: NodeID)
    requires Repeats(a, b) && p in GroupsOf(b)
    ensures p in GroupsOf(a) && Elems(GroupsOf(b)[p]) <= Elems(GroupsOf(a)[p])
    ensures |GroupsOf(b)[p]| <= |GroupsOf(a)[p]|
  {
    Grouping(b, p);
    GroupOfMembers(MarkedNodes(a), a.order, p);
    Marking(a);
    var first := GroupsOf(b)[p][0];
    assert first in GroupsOf(b)[p];
    forall id | id in GroupsOf(b)[p]
      ensures id in a.order && id in a.st.nodes && InGroup(a.st.nodes[id], p)
    {
      Survivor(a, b, id);
    }
    assert p in Parents(MarkedNodes(a), a.order);
    Grouping(a, p);
    EnumerationSize(GroupsOf(a)[p]);
    EnumerationSize(GroupsOf(b)[p]);
    SubsetSize(Elems(GroupsOf(b)[p]), Elems(GroupsOf(a)[p]));
  }

  lemma PlannedAreFolded(r: Run, p: NodeID, id: NodeID)
    requires IsRun(r) && p in BlueprintFor(r).plans && id in BlueprintFor(r).members[p]
    ensures id in FoldedBy(Result(r))
  {
    Closed(r);
    FoldedByRecords(SweptNodes(r), BlueprintFor(r), Result(r));
    MembersFold(SweptNodes(r), BlueprintFor(r), BlueprintFor(r).plans.Keys, p, id);
  }

  /** What could be folded in the second run could have been folded in the first, and was not. */
  lemma MembersRemain(a: Run, b: Run, p: NodeID, id: NodeID)
    requires Repeats(a, b) && p in GroupsOf(b) && p in GroupsOf(a)
    requires id in Compressible(SweptNodes(b), GroupsOf(b)[p])
    ensures id in Compressible(SweptNodes(a), GroupsOf(a)[p]) && id !in FoldedBy(Result(a))
  {
    Grouping(b, p);
    CompressibleMembers(SweptNodes(b), GroupsOf(b)[p]);
    Survivor(a, b, id);
    Marking(a);
    Marking(b);
    Grouping(a, p);
    CompressibleMembers(SweptNodes(a), GroupsOf(a)[p]);
  }

  lemma MembersShrink(a: Run, b: Run, p: NodeID)
    requires Repeats(a, b) && p in GroupsOf(b) && p in GroupsOf(a)
    ensures |Compressible(SweptNodes(b), GroupsOf(b)[p])| <= |Compressible(SweptNodes(a), GroupsOf(a)[p])|
  {
    var ma, mb := Compressible(SweptNodes(a), GroupsOf(a)[p]), Compressible(SweptNodes(b), GroupsOf(b)[p]);
    forall id | id in mb ensures id in ma {
      MembersRemain(a, b, p, id);
    }
    Grouping(a, p);
    Grouping(b, p);
    CompressibleMembers(SweptNodes(a), GroupsOf(a)[p]);
    CompressibleMembers(SweptNodes(b), GroupsOf(b)[p]);
    EnumerationSize(ma);
    EnumerationSize(mb);
    SubsetSize(Elems(mb), Elems(ma));
  }

  /** Nothing was swept, so a group of the second run has active members. */
  lemma GroupIsActive(b: Run, p: NodeID)
    requires AreOrders(b) && SweepOf(b) == [] && p in GroupsOf(b)
    ensures !AllResolved(SweptNodes(b), GroupsOf(b)[p])
  {
    Grouping(b, p);
    Marking(b);
    var first := GroupsOf(b)[p][0];
    assert first in GroupsOf(b)[p] && SweptNodes(b)[first].status == Active;
  }

  /** When a group is compacted, failures of the compressor aside. */
  predicate IsDue(r: Run, p: NodeID) {
    p in GroupsOf(r)
    && (|GroupsOf(r)[p]| >= r.gc.policy.maxChildren || AllResolved(SweptNodes(r), GroupsOf(r)[p]))
    && |Compressible(SweptNodes(r), GroupsOf(r)[p])| >= MIN_BRANCH
  }

  lemma DueIsPlanned(r: Run, p: NodeID)
    requires NeverFails(r.gc)
    ensures IsDue(r, p) <==> p in BlueprintFor(r).plans
    ensures IsDue(r, p) ==> BlueprintFor(r).members[p] == Compressible(SweptNodes(r), GroupsOf(r)[p])
  {
    assert r.gc.compress(Views(SweptNodes(r), Compressible(SweptNodes(r), GroupAt(GroupsOf(r), p)))).Some?;
  }

  /** All members of a group that was compacted are gone; a group that was not is too small still. */
  lemma NothingToCompact(a: Run, b: Run, p: NodeID)
    requires Repeats(a, b) && NeverFails(a.gc) && SweepOf(b) == [] && p in GroupsOf(b)
    ensures BranchFor(b.gc, SweptNodes(b), GroupsOf(b)[p], p) == None
  {
    GroupsShrink(a, b, p);
    GroupIsActive(b, p);
    MembersShrink(a, b, p);
    if |GroupsOf(b)[p]| >= b.gc.policy.maxChildren && |Compressible(SweptNodes(b), GroupsOf(b)[p])| >= MIN_BRANCH {
      DueIsPlanned(a, p);
      var id := Compressible(SweptNodes(b), GroupsOf(b)[p])[0];
      MembersRemain(a, b, p, id);
      PlannedAreFolded(a, p, id);
    }
  }

  /** If no group is due, the compaction loop changes nothing. */
  lemma {:induction false} QuietLoop(gc: Collector, groups: Groups, w: Work, ps: seq<NodeID>)
    requires forall p :: p in ps ==> BranchFor(gc, w.nodes, GroupAt(groups, p), p) == None
    ensures CompactAll(gc, groups, w, ps) == w
  {
    if ps != [] {
      QuietLoop(gc, groups, w, ps[..|ps| - 1]);
      assert ps[|ps| - 1] in ps;
    }
  }

  /** A run that finds nothing to sweep and no group due changes scores only. */
  lemma QuietRun(r: Run)
    requires AreOrders(r) && SweepOf(r) == []
    requires forall p :: p in GroupsOf(r) ==> BranchFor(r.gc, SweptNodes(r), GroupsOf(r)[p], p) == None
    ensures SameButScores(r.st.nodes, Result(r).nodes) && Result(r).nodes == MarkedNodes(r)
    ensures Result(r).swept == [] && Result(r).records == [] && Result(r).freed == 0
  {
    Marking(r);
    assert SweptNodes(r) == MarkedNodes(r);
    forall p | p in r.ps ensures p in GroupsOf(r) {
      assert p in Elems(r.ps);
    }
    QuietLoop(r.gc, GroupsOf(r), Work(SweptNodes(r), 0, []), r.ps);
  }

  /** Garbage collection is idempotent: whatever orders the maps are visited in, a second run at the
      same turn sweeps nothing, compacts nothing, frees nothing and changes no status or link. */
  lemma SecondRunDoesNothing(a: Run, b: Run)
    requires Repeats(a, b) && Independent(a.st.nodes) && NeverFails(a.gc)
    requires a.gc.scorer.weights.redundancyPen >= 0.0
    ensures Result(b).swept == [] && Result(b).records == [] && Result(b).freed == 0
    ensures SameButScores(Result(a).nodes, Result(b).nodes)
  {
    NothingToSweep(a, b);
    forall p | p in GroupsOf(b) ensures BranchFor(b.gc, SweptNodes(b), GroupsOf(b)[p], p) == None {
      NothingToCompact(a, b, p);
    }
    QuietRun(b);
  }

  // ---------------------------------------------------------------- two runs of one tree

  /** Two runs that differ in their iteration orders only. */
  ghost predicate SameInput(a: Run, b: Run) {
    IsRun(a) && IsRun(b) && b.gc == a.gc && b.query == a.query && b.st == a.st
  }

  lemma SameMarks(a: Run, b: Run)
    requires SameInput(a, b)
    ensures MarkedNodes(a) == MarkedNodes(b) && Elems(SweepOf(a)) == Elems(SweepOf(b)) && SweptNodes(a) == SweptNodes(b)
  {
    Marking(a);
    Marking(b);
  }

  lemma GroupsCarryOver(a: Run, b: Run, p: NodeID)
    requires SameInput(a, b) && p in GroupsOf(a)
    ensures p in GroupsOf(b)
  {
    Grouping(a, p);
    Marking(a);
    Marking(b);
    var first := GroupsOf(a)[p][0];
    assert first in GroupsOf(a)[p];
    assert first in b.order;
  }

  lemma SameGroups(a: Run, b: Run, p: NodeID)
    requires SameInput(a, b) && p in GroupsOf(a)
    ensures p in GroupsOf(b) && Elems(GroupsOf(a)[p]) == Elems(GroupsOf(b)[p])
    ensures |GroupsOf(a)[p]| == |GroupsOf(b)[p]|
    ensures forall id :: id in GroupsOf(a)[p] <==> id in GroupsOf(b)[p]
  {
    GroupsCarryOver(a, b, p);
    Grouping(a, p);
    Grouping(b, p);
    SameEnumerations(GroupsOf(a)[p], GroupsOf(b)[p]);
  }

  lemma SameEnumerations<T>(a: seq<T>, b: seq<T>)
    requires NoDup(a) && NoDup(b) && forall x :: x in a <==> x in b
    ensures Elems(a) == Elems(b) && |a| == |b|
  {
    assert Elems(a) == Elems(b);
    EnumerationSize(a);
    EnumerationSize(b);
  }

  lemma SameFilters(nodes: Nodes, a: seq<NodeID>, b: seq<NodeID>)
    requires NoDup(a) && NoDup(b) && forall id :: id in a <==> id in b
    ensures Elems(Compressible(nodes, a)) == Elems(Compressible(nodes, b))
      && |Compressible(nodes, a)| == |Compressible(nodes, b)|
  {
    CompressibleMembers(nodes, a);
    CompressibleMembers(nodes, b);
    SameEnumerations(Compressible(nodes, a), Compressible(nodes, b));
  }

  lemma SameMembers(a: Run, b: Run, p: NodeID)
    requires SameInput(a, b) && p in GroupsOf(a) && p in GroupsOf(b)
    ensures Elems(Compressible(SweptNodes(a), GroupsOf(a)[p])) == Elems(Compressible(SweptNodes(b), GroupsOf(b)[p]))
    ensures |Compressible(SweptNodes(a), GroupsOf(a)[p])| == |Compressible(SweptNodes(b), GroupsOf(b)[p])|
  {
    SameMarks(a, b);
    SameGroups(a, b, p);
    Grouping(a, p);
    Grouping(b, p);
    SameFilters(SweptNodes(a), GroupsOf(a)[p], GroupsOf(b)[p]);
  }

  lemma SamePlans(a: Run, b: Run, p: NodeID)
    requires SameInput(a, b) && NeverFails(a.gc) && p in BlueprintFor(a).plans
    ensures p in BlueprintFor(b).plans
  {
    DueIsPlanned(a, p);
    DueIsPlanned(b, p);
    SameGroups(a, b, p);
    SameMembers(a, b, p);
    SameMarks(a, b);
    assert AllResolved(SweptNodes(a), GroupsOf(a)[p]) == AllResolved(SweptNodes(b), GroupsOf(b)[p]);
  }

  lemma SameFolds(a: Run, b: Run, id: NodeID)
    requires SameInput(a, b) && NeverFails(a.gc) && id in FoldedBy(Result(a))
    ensures id in FoldedBy(Result(b))
  {
    Closed(a);
    FoldedByRecords(SweptNodes(a), BlueprintFor(a), Result(a));
    var p := SweptNodes(a)[id].parent;
    SamePlans(a, b, p);
    SameMembers(a, b, p);
    var ma, mb := Compressible(SweptNodes(a), GroupsOf(a)[p]), Compressible(SweptNodes(b), GroupsOf(b)[p]);
    assert id in Elems(ma) && id in Elems(mb);
    PlannedAreFolded(b, p, id);
  }

  /** Whatever orders the two maps are visited in, the same nodes are swept, the same nodes are folded,
      and every node ends with the same status. */
  lemma StatusesIgnoreOrders(a: Run, b: Run, id: NodeID)
    requires SameInput(a, b) && NeverFails(a.gc) && id in a.st.nodes
    ensures id in Result(a).nodes && id in Result(b).nodes
    ensures Result(a).nodes[id].status == Result(b).nodes[id].status
    ensures id in Result(a).swept <==> id in Result(b).swept
    ensures id in FoldedBy(Result(a)) <==> id in FoldedBy(Result(b))
  {
    OldNodesEvolve(a, id);
    OldNodesEvolve(b, id);
    Marking(a);
    Marking(b);
    if id in FoldedBy(Result(a)) {
      SameFolds(a, b, id);
    }
    if id in FoldedBy(Result(b)) {
      SameFolds(b, a, id);
    }
  }
}
