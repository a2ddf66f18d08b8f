/** What a fresh node takes from its event. */
module NodeLaws {
  import opened Collections
  import opened Domain
  import opened Text
  import opened CappedMerge
  import opened Facts
  import opened StateTree

  /** A user prompt is a constraint if it contains one of the rule words, in any case, else a goal; any
      other event decides its node's kind by its own kind. */
  lemma KindOfEvent(lower: Lower, ev: Event)
    ensures var says := (word: string) => Contains(LowerAll(lower, ev.payload), word);
      Classify(lower, ev) ==
        if ev.kind == EventUserPrompt then
          if says("must") || says("always") || says("never") || says("require") || says("constraint")
          then NodeConstraint else NodeGoal
        else if ev.kind == EventLLMResponse then NodeDecision
        else if ev.kind == EventToolCall then NodeAttempt
        else if ev.kind == EventToolResult then NodeToolResult
        else if ev.kind == EventError || ev.kind == EventRetry then NodeIssue
        else NodeBackground
  {
    assert RULE_WORDS[0] == "must" && RULE_WORDS[1] == "always" && RULE_WORDS[2] == "never";
    assert RULE_WORDS[3] == "require" && RULE_WORDS[4] == "constraint";
  }

  /** Identity, place and size come from the event and the turn; the summary is the payload, cut after
      500 characters. */
  lemma NodeOfEvent(t: Texts, session: string, turn: nat, parent: NodeID, ev: Event)
    ensures var n := NewNode(t, session, turn, parent, ev);
      && n.id == EventNodeID(session, turn) && n.turn == turn && n.parent == parent && n.status == Active
      && n.kind == Classify(t.lower, ev) && n.tokens == ev.tokens && n.eventRefs == [ev.id]
      && n.children == [] && n.dependencies == [] && n.openIssues == [] && n.embedding == []
      && (if |ev.payload| <= 500 then n.summary == ev.payload
          else |n.summary| == 503 && n.summary[..500] == ev.payload[..500] && n.summary[500..] == "...")
  {
    var n := NewNode(t, session, turn, parent, ev);
    if |ev.payload| > 500 {
      assert n.summary == ev.payload[..500] + "...";
    }
  }

  /** The facts to be found in an event: user prompts are searched for more than other events. */
  function FactsIn(t: Texts, ev: Event): seq<string> {
    var text := TrimSpace(ev.payload);
    if text == "" then [] else if ev.kind == EventUserPrompt then t.userFacts(text) else t.lexicon(text)
  }

  /** The facts of the node are those found in the event: each is the trimmed form of one that was found,
      no two differ in case only, there are at most sixteen, and if there are fewer none is missing. */
  lemma FactsOfEvent(t: Texts, session: string, turn: nat, parent: NodeID, ev: Event)
    ensures var facts := NewNode(t, session, turn, parent, ev).facts;
      && |facts| <= 16
      && (forall i, j :: 0 <= i < j < |facts| ==> LowerAll(t.lower, facts[i]) != LowerAll(t.lower, facts[j]))
      && (forall k :: 0 <= k < |facts| ==> facts[k] != "" && IsFirstSpelling(t.lower, FactsIn(t, ev), facts[k]))
      && (|facts| < 16 ==>
            forall x :: x in FactsIn(t, ev) && TrimSpace(x) != "" ==> IsSpelled(t.lower, facts, TrimSpace(x)))
  {
    DedupedIs(t.lower, FactsIn(t, ev), 16);
    NothingDeduped(t.lower, 16);
  }

  lemma NothingDeduped(lower: Lower, cap: nat)
    ensures Deduped(lower, [], cap) == []
  {
    DedupedIs(lower, [], cap);
  }

  /** Deduping what has been deduped changes nothing. */
  lemma DedupedOnce(lower: Lower, s: seq<string>, cap: nat)
    ensures Deduped(lower, Deduped(lower, s, cap), cap) == Deduped(lower, s, cap)
  {
    TrimSpaceIdempotent();
    DedupeAbsorbs(Spelling(lower), [], s, cap);
    assert [] + Deduped(lower, s, cap) == Deduped(lower, s, cap) && [] + s == s;
  }

  /** Only assistant replies decide. What a reply decides are its noted lines or its opening: each
      decision is the trimmed form of one of them, and if there are fewer than sixteen none is missing. */
  lemma DecisionsOfEvent(t: Texts, session: string, turn: nat, parent: NodeID, ev: Event)
    ensures var decisions := NewNode(t, session, turn, parent, ev).decisions;
      var stated := StatedDecisions(t.lower, TrimSpace(ev.payload));
      && (ev.kind != EventLLMResponse || TrimSpace(ev.payload) == "" ==> decisions == [])
      && (ev.kind == EventLLMResponse && TrimSpace(ev.payload) != "" ==>
            && 0 < |decisions| <= 16
            && (forall k :: 0 <= k < |decisions| ==> IsFirstSpelling(t.lower, stated, decisions[k]))
            && (|decisions| < 16 ==>
                  forall x :: x in stated && TrimSpace(x) != "" ==> IsSpelled(t.lower, decisions, TrimSpace(x))))
  {
    var stated := StatedDecisions(t.lower, TrimSpace(ev.payload));
    DedupedOnce(t.lower, stated, 16);
    DedupedIs(t.lower, stated, 16);
    NothingDeduped(t.lower, 16);
    if ev.kind == EventLLMResponse && TrimSpace(ev.payload) != "" {
      RepliesDecide(t, ev);
    }
  }

  /** A one-line reply that notes something decides that and nothing else. */
  lemma NotedIsDecided(lower: Lower, line: string, d: string)
    requires line == "noted" + [':'] + (" " + d) && LowerAll(lower, "noted") == "noted"
    requires d != "" && Trimmed(d) && '\n' !in d && !EqualFold(lower, d, "noted")
    ensures StatedDecisions(lower, line) == [d]
  {
    NotedLineShape(line, d);
    OneLine(line);
    NotedLineSays(lower, line, d);
    OneNotedLine(lower, line);
  }

  lemma NotedLineShape(line: string, d: string)
    requires line == "noted" + [':'] + (" " + d) && d != "" && Trimmed(d) && '\n' !in d
    ensures '\n' !in line && TrimSpace(line) == line
  {
    assert line[0] == 'n' && line[|line| - 1] == d[|d| - 1];
    TrimmedStays(line);
  }

  lemma OneLine(line: string)
    requires '\n' !in line
    ensures Split(line, '\n') == [line]
  {
    IndexFromNone(line, '\n', 0);
  }

  lemma OneNotedLine(lower: Lower, line: string)
    requires NotedRest(lower, TrimSpace(line)) != ""
    ensures NotedLines(lower, [line]) == [NotedRest(lower, TrimSpace(line))]
  {
    assert [line][..0] == [];
  }

  lemma NotedLineSays(lower: Lower, line: string, d: string)
    requires line == "noted" + [':'] + (" " + d) && LowerAll(lower, "noted") == "noted"
    requires d != "" && Trimmed(d) && !EqualFold(lower, d, "noted")
    ensures NotedRest(lower, line) == d
  {
    var low := LowerAll(lower, line);
    IndexOfIs("noted", ':', " " + d);
    assert line[..5] == "noted" && low[..5] == LowerAll(lower, line[..5]);
    assert HasPrefix(low, "noted");
    assert line[6..] == " " + d + "";
    TrimSpaceIs(" ", d, "");
    TrimmedStays(d);
    assert AfterMark(line, low, "noted -") == d;
  }

  // ---------------------------------------------------------------- the opening of a reply

  predicate IsFirstBreak(text: string, k: nat) {
    k < |text| && text[k] == '\n' && '\n' !in text[..k]
  }

  /** A full stop before a blank, a line break or the end, with more than thirty characters before it. */
  predicate StopsAt(text: string, k: nat) {
    k < |text| && text[k] == '.' && (k + 1 < |text| ==> text[k + 1] == ' ' || text[k + 1] == '\n')
    && |TrimSpace(text[..k])| > 30
  }

  predicate IsFirstStop(text: string, k: nat) {
    StopsAt(text, k) && forall j: nat :: j < k ==> !StopsAt(text, j)
  }

  lemma {:induction false} FirstLineAt(text: string, i: nat, k: nat)
    requires i <= k && IsFirstBreak(text, k) && TrimSpace(text[..k]) != ""
    ensures FirstLine(text, i) == TrimSpace(text[..k])
    decreases k - i
  {
    if i < k {
      assert text[..k][i] == text[i];
      FirstLineAt(text, i + 1, k);
    }
  }

  lemma {:induction false} NoFirstLine(text: string, i: nat)
    requires i <= |text| && '\n' !in text
    ensures FirstLine(text, i) == ""
    decreases |text| - i
  {
    if i < |text| {
      NoFirstLine(text, i + 1);
    }
  }

  lemma {:induction false} FirstSentenceAt(text: string, i: nat, k: nat)
    requires i <= k && IsFirstStop(text, k)
    ensures FirstSentence(text, i) == TrimSpace(text[..k])
    decreases k - i
  {
    if i < k {
      assert !StopsAt(text, i);
      FirstSentenceAt(text, i + 1, k);
    }
  }

  lemma {:induction false} NoFirstSentence(text: string, i: nat)
    requires i <= |text| && forall k: nat :: !StopsAt(text, k)
    ensures FirstSentence(text, i) == ""
    decreases |text| - i
  {
    if i < |text| {
      assert !StopsAt(text, i);
      NoFirstSentence(text, i + 1);
    }
  }

  /** The opening of a reply is its first line if it has several, else what comes before its first full
      stop after more than thirty characters, else all of it; and at most 220 characters of that. */
  lemma OpeningIs(reply: string, k: nat)
    ensures var text := TrimSpace(reply);
      && (IsFirstBreak(text, k) ==> AssistantOpening(reply) == TruncateRunes(TrimSpace(text[..k]), 220))
      && ('\n' !in text && IsFirstStop(text, k) ==> AssistantOpening(reply) == TruncateRunes(TrimSpace(text[..k]), 220))
      && ('\n' !in text && (forall j: nat :: !StopsAt(text, j)) ==> AssistantOpening(reply) == TruncateRunes(text, 220))
  {
    var text := TrimSpace(reply);
    TrimmedShows(reply);
    if IsFirstBreak(text, k) {
      assert k > 0 && text[..k][0] == text[0];
      TrimSpaceVisible(text[..k], 0);
      FirstLineAt(text, 0, k);
    } else if '\n' !in text {
      NoFirstLine(text, 0);
      if IsFirstStop(text, k) {
        FirstSentenceAt(text, 0, k);
      }
      if forall j: nat :: !StopsAt(text, j) {
        NoFirstSentence(text, 0);
      }
    }
  }
}
