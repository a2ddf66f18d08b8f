/** What the built-in compressor keeps of the nodes it folds. */
module CompressorLaws {
  import opened Collections
  import opened Domain
  import opened Text
  import opened Facts
  import opened GarbageCollector
  import opened CollectorAtWork

  lemma {:induction false} FactOfSome(nodes: seq<Node>, x: string)
    ensures x in AllFacts(nodes) <==> exists n :: n in nodes && x in n.facts
    ensures x in AllDecisions(nodes) <==> exists n :: n in nodes && x in n.decisions
  {
    if nodes != [] {
      FactOfSome(nodes[..|nodes| - 1], x);
      FrontAndLast(nodes);
    }
  }

  lemma {:induction false} IssueOfSome(nodes: seq<Node>, x: string)
    ensures x in AllIssues(nodes) <==> exists n :: n in nodes && x in n.openIssues
    ensures x in AllEventRefs(nodes) <==> exists n :: n in nodes && x in n.eventRefs
  {
    if nodes != [] {
      IssueOfSome(nodes[..|nodes| - 1], x);
      FrontAndLast(nodes);
    }
  }

  lemma FrontAndLast<T>(s: seq<T>)
    requires s != []
    ensures forall x :: x in s <==> x in s[..|s| - 1] || x == s[|s| - 1]
  {
    assert s == s[..|s| - 1] + [s[|s| - 1]];
  }

  /** Nothing is lost but what the cap cuts off: below it every fact and every decision of a folded node
      is on the branch, in some spelling; its issues and event references all are. */
  lemma BranchKeeps(lower: Lower, count: string -> nat, stamp: nat, nodes: seq<Node>, n: Node)
    requires n in nodes
    ensures var c := SimpleBranch(lower, count, stamp, nodes);
      && (|c.facts| < 16 ==> forall x :: x in n.facts && TrimSpace(x) != "" ==> IsSpelled(lower, c.facts, TrimSpace(x)))
      && (|c.decisions| < 16 ==>
            forall x :: x in n.decisions && TrimSpace(x) != "" ==> IsSpelled(lower, c.decisions, TrimSpace(x)))
      && (forall x :: x in n.openIssues ==> x in c.openIssues)
      && (forall x :: x in n.eventRefs ==> x in c.eventRefs)
  {
    DedupedIs(lower, AllFacts(nodes), 16);
    DedupedIs(lower, AllDecisions(nodes), 16);
    forall x ensures x in n.facts ==> x in AllFacts(nodes)
      ensures x in n.decisions ==> x in AllDecisions(nodes)
    {
      FactOfSome(nodes, x);
    }
    forall x ensures x in n.openIssues ==> x in AllIssues(nodes)
      ensures x in n.eventRefs ==> x in AllEventRefs(nodes)
    {
      IssueOfSome(nodes, x);
    }
  }

  /** And nothing is invented: every fact of the branch is the trimmed form of a fact of some node. */
  lemma BranchInventsNothing(lower: Lower, count: string -> nat, stamp: nat, nodes: seq<Node>, x: string)
    requires x in SimpleBranch(lower, count, stamp, nodes).facts
    ensures exists n, y :: n in nodes && y in n.facts && TrimSpace(y) == x
  {
    var facts, all := SimpleBranch(lower, count, stamp, nodes).facts, AllFacts(nodes);
    DedupedIs(lower, all, 16);
    var k :| 0 <= k < |facts| && facts[k] == x;
    assert IsFirstSpelling(lower, all, facts[k]);
    var i :| 0 <= i < |all| && TrimSpace(all[i]) == x;
    FactOfSome(nodes, all[i]);
  }

  /** Every fact of the branch can be read in its summary, and so can the summaries of the folded nodes,
      all of them if there are at most three, else the first and the last. */
  lemma SummaryKeeps(lower: Lower, count: string -> nat, stamp: nat, nodes: seq<Node>, k: nat)
    ensures var c := SimpleBranch(lower, count, stamp, nodes);
      && (k < |c.facts| ==> IsPart(c.facts[k], c.summary))
      && (k < |Summaries(nodes)| && (|Summaries(nodes)| <= 3 || k == 0 || k == |Summaries(nodes)| - 1) ==>
            IsPart(Summaries(nodes)[k], c.summary))
  {
    var c, parts := SimpleBranch(lower, count, stamp, nodes), Summaries(nodes);
    if k < |c.facts| {
      PrefixKeeps(c.facts, k);
      OuterPart(c.facts[k], VerifiedFactsPrefix(c.facts), "Compressed branch: ", Core(parts));
    }
    if k < |parts| && (|parts| <= 3 || k == 0 || k == |parts| - 1) {
      CoreKeeps(parts, k);
      OuterPart(parts[k], VerifiedFactsPrefix(c.facts), "Compressed branch: ", Core(parts));
    }
  }

  lemma OuterPart(x: string, a: string, b: string, c: string)
    requires IsPart(x, a) || IsPart(x, c)
    ensures IsPart(x, a + b + c)
  {
    if IsPart(x, a) {
      PartOfPart(x, a, "", b + c);
      assert "" + a + (b + c) == a + b + c;
    } else {
      PartOfPart(x, c, a + b, "");
      assert a + b + c + "" == a + b + c;
    }
  }

  lemma PrefixKeeps(facts: seq<string>, k: nat)
    requires k < |facts|
    ensures IsPart(facts[k], VerifiedFactsPrefix(facts))
  {
    JoinedIsPart(facts, ", ", k);
    PartOfPart(facts[k], Join(facts, ", "), "Verified facts (verbatim): ", "\n\n");
  }

  lemma CoreKeeps(parts: seq<string>, k: nat)
    requires k < |parts| && (|parts| <= 3 || k == 0 || k == |parts| - 1)
    ensures IsPart(parts[k], Core(parts))
  {
    if |parts| <= 3 {
      JoinedIsPart(parts, " | ", k);
    } else {
      WholeIsPart(parts[k]);
      if k == 0 {
        PartOfPart(parts[0], parts[0], "", " ... " + parts[|parts| - 1]);
        assert "" + parts[0] + (" ... " + parts[|parts| - 1]) == Core(parts);
      } else {
        PartOfPart(parts[k], parts[k], parts[0] + " ... ", "");
        assert parts[0] + " ... " + parts[k] + "" == Core(parts);
      }
    }
  }
}
