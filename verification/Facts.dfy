/** Fact and decision extraction, case-insensitive merging, and the trailing `ENTITIES:` line. */
module Facts {
  import opened CappedMerge
  import opened Domain
  import opened Text

  const DEFAULT_MAX_FACTS := 16

  /** What fact extraction reads from outside: the case mapping and the two string tables (the
      product lexicon, and the decision and ADR patterns applied to user prompts). */
  datatype Texts = Texts(lower: Lower, lexicon: string -> seq<string>, userFacts: string -> seq<string>)

  // ---------------------------------------------------------------- merging

  /** Strings are compared after trimming, without regard to case; blank ones are dropped. */
  function Spelling(lower: Lower): Rule<string, string> {
    Rule(s => TrimSpace(s), "", s => LowerAll(lower, s))
  }

  function EffectiveCap(cap: int): nat {
    if cap <= 0 then DEFAULT_MAX_FACTS else cap
  }

  /** What `dedupeLimited` returns for a positive cap. */
  function Deduped(lower: Lower, s: seq<string>, cap: nat): seq<string> {
    Dedupe(Spelling(lower), s, cap)
  }

  method UnionFacts(lower: Lower, a: seq<string>, b: seq<string>, cap: int) returns (out: seq<string>)
    ensures out == Deduped(lower, a + b, EffectiveCap(cap))
  {
    out := AppendUnique(Spelling(lower), a, b, EffectiveCap(cap));
  }

  /** Deduping facts: each one kept is the trimmed form of the first fact with its letters, whatever
      their case, no two kept ones differ in case only, and below the cap none is missing. */
  lemma DedupedIs(lower: Lower, s: seq<string>, cap: nat)
    ensures var out := Deduped(lower, s, cap);
      && |out| <= cap
      && (forall i, j :: 0 <= i < j < |out| ==> LowerAll(lower, out[i]) != LowerAll(lower, out[j]))
      && (forall k :: 0 <= k < |out| ==> out[k] != "" && IsFirstSpelling(lower, s, out[k]))
      && (|out| < cap ==> forall x :: x in s && TrimSpace(x) != "" ==> IsSpelled(lower, out, TrimSpace(x)))
  {
    var r, out := Spelling(lower), Deduped(lower, s, cap);
    DedupeIs(r, s, cap);
    forall i, j | 0 <= i < j < |out| ensures LowerAll(lower, out[i]) != LowerAll(lower, out[j]) {
      assert r.key(out[i]) != r.key(out[j]);
    }
    forall k | 0 <= k < |out| ensures out[k] != "" && IsFirstSpelling(lower, s, out[k]) {
      assert IsFirst(r, s, out[k]);
      FirstIsFirstSpelling(lower, s, out[k]);
    }
    forall x | |out| < cap && x in s && TrimSpace(x) != "" ensures IsSpelled(lower, out, TrimSpace(x)) {
      var i :| 0 <= i < |s| && s[i] == x;
      assert r.key(r.trim(s[i])) in Keys(r.key, out);
    }
  }

  /** `x` is the trimmed form of some member, and all earlier members have other letters. */
  ghost predicate IsFirstSpelling(lower: Lower, s: seq<string>, x: string) {
    exists i :: 0 <= i < |s| && TrimSpace(s[i]) == x
                && forall j :: 0 <= j < i ==> LowerAll(lower, TrimSpace(s[j])) != LowerAll(lower, x)
  }

  /** Some member has the letters of `x`. */
  ghost predicate IsSpelled(lower: Lower, s: seq<string>, x: string) {
    exists k :: 0 <= k < |s| && LowerAll(lower, s[k]) == LowerAll(lower, x)
  }

  lemma FirstIsFirstSpelling(lower: Lower, s: seq<string>, x: string)
    requires IsFirst(Spelling(lower), s, x)
    ensures IsFirstSpelling(lower, s, x)
  {
    var r := Spelling(lower);
    var i :| 0 <= i < |s| && r.trim(s[i]) == x
      && forall j :: 0 <= j < i && r.trim(s[j]) != r.blank ==> r.key(r.trim(s[j])) != r.key(x);
    forall j | 0 <= j < i ensures LowerAll(lower, TrimSpace(s[j])) != LowerAll(lower, x) {
      assert r.trim(s[j]) == TrimSpace(s[j]);
    }
  }

  /** Staged merging of any number of branches, each cleaned and capped on its own first, gives the
      same facts as one merge over all of them. */
  lemma BranchMergeIsOneShot(lower: Lower, branches: seq<seq<string>>, cap: nat)
    ensures Staged(Spelling(lower), branches, cap) == Deduped(lower, Flatten(branches), cap)
  {
    TrimSpaceIdempotent();
    StagedIsOneShot(Spelling(lower), branches, cap);
  }

  function AllFacts(nodes: seq<Node>): seq<string> {
    if nodes == [] then [] else AllFacts(nodes[..|nodes| - 1]) + nodes[|nodes| - 1].facts
  }

  function AllDecisions(nodes: seq<Node>): seq<string> {
    if nodes == [] then [] else AllDecisions(nodes[..|nodes| - 1]) + nodes[|nodes| - 1].decisions
  }

  method MergeFromNodes(lower: Lower, nodes: seq<Node>, capFacts: int, capDec: int)
    returns (facts: seq<string>, decisions: seq<string>)
    ensures facts == Deduped(lower, AllFacts(nodes), EffectiveCap(capFacts))
    ensures decisions == Deduped(lower, AllDecisions(nodes), EffectiveCap(capDec))
  {
    var f, d := [], [];
    for i := 0 to |nodes|
      invariant f == AllFacts(nodes[..i]) && d == AllDecisions(nodes[..i])
    {
      assert nodes[..i + 1][..i] == nodes[..i];
      f := f + nodes[i].facts;
      d := d + nodes[i].decisions;
    }
    assert nodes[..|nodes|] == nodes;
    facts := DedupeLimited(Spelling(lower), f, EffectiveCap(capFacts));
    decisions := DedupeLimited(Spelling(lower), d, EffectiveCap(capDec));
  }

  // ---------------------------------------------------------------- extraction

  const MAX_SENTENCE := 220

  function TruncateRunes(s: string, max: nat): string {
    if |s| <= max then s else s[..max]
  }

  /** The part of a line behind its first colon, or behind a leading "noted -". */
  function AfterMark(line: string, low: string, dash: string): string
    requires |low| == |line|
  {
    var colon := IndexOf(line, ':');
    if colon >= 0 then TrimSpace(line[colon + 1..])
    else if |low| >= |dash| && HasPrefix(low, dash) then TrimSpace(line[|dash|..])
    else line
  }

  /** What follows `word` at the start of a line, if that is more than the word again. */
  function RestAfter(lower: Lower, line: string, word: string, dash: string): string {
    var low := LowerAll(lower, line);
    var rest := if HasPrefix(low, word) then AfterMark(line, low, dash) else "";
    if rest != "" && !EqualFold(lower, TrimSpace(rest), word) then rest else ""
  }

  /** The decision a "noted" line of an assistant reply states, or the empty string. */
  function NotedRest(lower: Lower, line: string): string {
    RestAfter(lower, line, "noted", "noted -")
  }

  function NotedLines(lower: Lower, lines: seq<string>): seq<string> {
    if lines == [] then []
    else
      var out := NotedLines(lower, lines[..|lines| - 1]);
      var rest := NotedRest(lower, TrimSpace(lines[|lines| - 1]));
      if rest == "" then out else out + [rest]
  }

  /** The first non-blank stretch before a line break at position `i` or later. */
  function FirstLine(text: string, i: nat): string
    requires i <= |text|
    decreases |text| - i
  {
    if i == |text| then ""
    else if text[i] == '\n' && TrimSpace(text[..i]) != "" then TrimSpace(text[..i])
    else FirstLine(text, i + 1)
  }

  predicate EndsSentence(text: string, i: nat)
    requires i < |text|
  {
    text[i] == '.' && (i == |text| - 1 || text[i + 1] == ' ' || text[i + 1] == '\n')
  }

  /** The first stretch of more than 30 characters before a sentence end at `i` or later. */
  function FirstSentence(text: string, i: nat): string
    requires i <= |text|
    decreases |text| - i
  {
    if i == |text| then ""
    else if EndsSentence(text, i) && |TrimSpace(text[..i])| > 30 then TrimSpace(text[..i])
    else FirstSentence(text, i + 1)
  }

  function AssistantOpening(reply: string): string {
    var text := TrimSpace(reply);
    var line := FirstLine(text, 0);
    var sentence := FirstSentence(text, 0);
    TruncateRunes(if line != "" then line else if sentence != "" then sentence else text, MAX_SENTENCE)
  }

  /** The loops of `assistantFirstSentence`. */
  method AssistantFirstSentence(reply: string) returns (s: string)
    ensures s == AssistantOpening(reply)
  {
    var text := TrimSpace(reply);
    if text == "" {
      return "";
    }
    for i := 0 to |text|
      invariant FirstLine(text, 0) == FirstLine(text, i)
    {
      if text[i] == '\n' {
        var line := TrimSpace(text[..i]);
        if line != "" {
          return TruncateRunes(line, MAX_SENTENCE);
        }
      }
    }
    for i := 0 to |text|
      invariant FirstSentence(text, 0) == FirstSentence(text, i)
    {
      if EndsSentence(text, i) {
        var sentence := TrimSpace(text[..i]);
        if sentence != "" && |sentence| > 30 {
          return TruncateRunes(sentence, MAX_SENTENCE);
        }
      }
    }
    s := TruncateRunes(text, MAX_SENTENCE);
  }

  /** What an assistant reply decides: its "noted" lines, or else its opening. */
  function StatedDecisions(lower: Lower, text: string): seq<string> {
    var noted := NotedLines(lower, Split(text, '\n'));
    var opening := AssistantOpening(text);
    if noted != [] then noted else if opening != "" then [opening] else []
  }

  lemma BlankLineSaysNothing(lower: Lower)
    ensures NotedRest(lower, "") == ""
  {
    assert !HasPrefix(LowerAll(lower, ""), "noted");
  }

  lemma NotedLinesSnoc(lower: Lower, lines: seq<string>, i: nat)
    requires i < |lines|
    ensures NotedLines(lower, lines[..i + 1]) ==
      var rest := NotedRest(lower, TrimSpace(lines[i]));
      NotedLines(lower, lines[..i]) + if rest == "" then [] else [rest]
  {
    assert lines[..i + 1][..i] == lines[..i];
  }

  method ExtractAssistantDecisions(lower: Lower, text: string) returns (decisions: seq<string>)
    ensures decisions == Deduped(lower, StatedDecisions(lower, text), DEFAULT_MAX_FACTS)
  {
    var lines := Split(text, '\n');
    var out := [];
    for i := 0 to |lines|
      invariant out == NotedLines(lower, lines[..i])
    {
      NotedLinesSnoc(lower, lines, i);
      var line := TrimSpace(lines[i]);
      if line == "" {
        BlankLineSaysNothing(lower);
        continue;
      }
      var rest := NotedRest(lower, line);
      if rest != "" {
        out := out + [rest];
      }
    }
    assert lines[..|lines|] == lines;
    if |out| == 0 {
      var s := AssistantFirstSentence(text);
      if s != "" {
        out := out + [s];
      }
    }
    decisions := DedupeLimited(Spelling(lower), out, DEFAULT_MAX_FACTS);
  }

  /** The facts and decisions a fresh node takes from its event. */
  function Extracted(t: Texts, ev: Event): (r: (seq<string>, seq<string>)) {
    var text := TrimSpace(ev.payload);
    if text == "" then ([], [])
    else
      var facts := if ev.kind.EventUserPrompt? then t.userFacts(text) else t.lexicon(text);
      var decisions :=
        if ev.kind.EventLLMResponse? then
          Deduped(t.lower, StatedDecisions(t.lower, text), DEFAULT_MAX_FACTS)
        else [];
      (Deduped(t.lower, facts, DEFAULT_MAX_FACTS), Deduped(t.lower, decisions, DEFAULT_MAX_FACTS))
  }

  /** Something visible survives merging. */
  lemma VisibleSurvives(lower: Lower, s: seq<string>, cap: nat)
    requires cap >= 1 && s != [] && TrimSpace(s[0]) != ""
    ensures Deduped(lower, s, cap) != [] && TrimSpace(Deduped(lower, s, cap)[0]) != ""
  {
    var r := Spelling(lower);
    assert s == [s[0]] + s[1..];
    StripConcat(r, [s[0]], s[1..]);
    assert Strip(r, [s[0]]) == [TrimSpace(s[0])] by { assert [s[0]][..0] == []; }
    DistinctConcat(r.key, [TrimSpace(s[0])], Strip(r, s[1..]));
    assert [TrimSpace(s[0])][..0] == [];
    assert Distinct(r.key, [TrimSpace(s[0])]) == [TrimSpace(s[0])];
    TrimSpaceIdempotent();
  }

  /** A string whose first character shows. */
  predicate Shows(s: string) {
    s != "" && !IsSpace(s[0])
  }

  lemma TrimmedShows(s: string)
    ensures TrimSpace(s) == "" || Shows(TrimSpace(s))
  {
    TrimSpaceTrims(s);
  }

  lemma {:induction false} FirstLineShows(text: string, i: nat)
    requires i <= |text|
    ensures FirstLine(text, i) == "" || Shows(FirstLine(text, i))
    decreases |text| - i
  {
    if i < |text| {
      TrimmedShows(text[..i]);
      FirstLineShows(text, i + 1);
    }
  }

  lemma {:induction false} FirstSentenceShows(text: string, i: nat)
    requires i <= |text|
    ensures FirstSentence(text, i) == "" || Shows(FirstSentence(text, i))
    decreases |text| - i
  {
    if i < |text| {
      TrimmedShows(text[..i]);
      FirstSentenceShows(text, i + 1);
    }
  }

  lemma OpeningShows(reply: string)
    requires TrimSpace(reply) != ""
    ensures Shows(AssistantOpening(reply))
  {
    var text := TrimSpace(reply);
    TrimmedShows(reply);
    FirstLineShows(text, 0);
    FirstSentenceShows(text, 0);
  }

  lemma AfterMarkShows(line: string, low: string, dash: string)
    requires |low| == |line| && (line == "" || Shows(line))
    ensures AfterMark(line, low, dash) == "" || Shows(AfterMark(line, low, dash))
  {
    var colon := IndexOf(line, ':');
    if colon >= 0 {
      TrimmedShows(line[colon + 1..]);
    } else if |low| >= |dash| && HasPrefix(low, dash) {
      TrimmedShows(line[|dash|..]);
    } else {
      assert AfterMark(line, low, dash) == line;
    }
  }

  lemma RestAfterShows(lower: Lower, line: string, word: string, dash: string)
    requires line == "" || Shows(line)
    ensures RestAfter(lower, line, word, dash) == "" || Shows(RestAfter(lower, line, word, dash))
  {
    AfterMarkShows(line, LowerAll(lower, line), dash);
  }

  lemma NotedRestShows(lower: Lower, line: string)
    requires line == "" || Shows(line)
    ensures NotedRest(lower, line) == "" || Shows(NotedRest(lower, line))
  {
    RestAfterShows(lower, line, "noted", "noted -");
  }

  lemma {:induction false} NotedLinesShow(lower: Lower, lines: seq<string>)
    ensures forall i :: 0 <= i < |NotedLines(lower, lines)| ==> Shows(NotedLines(lower, lines)[i])
  {
    if lines != [] {
      NotedLinesShow(lower, lines[..|lines| - 1]);
      TrimmedShows(lines[|lines| - 1]);
      NotedRestShows(lower, TrimSpace(lines[|lines| - 1]));
    }
  }

  /** Every assistant reply that is not blank leaves at least one decision on its node. */
  lemma RepliesDecide(t: Texts, ev: Event)
    requires ev.kind.EventLLMResponse? && TrimSpace(ev.payload) != ""
    ensures Extracted(t, ev).1 != []
  {
    var text := TrimSpace(ev.payload);
    var stated := StatedDecisions(t.lower, text);
    TrimSpaceIdempotent();
    OpeningShows(text);
    NotedLinesShow(t.lower, Split(text, '\n'));
    assert stated != [] && Shows(stated[0]);
    TrimSpaceVisible(stated[0], 0);
    VisibleSurvives(t.lower, stated, DEFAULT_MAX_FACTS);
    VisibleSurvives(t.lower, Deduped(t.lower, stated, DEFAULT_MAX_FACTS), DEFAULT_MAX_FACTS);
  }
}
