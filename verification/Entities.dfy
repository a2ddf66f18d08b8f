/** The trailing `ENTITIES:` line of a compressor's reply: written by joining with commas, read back
    by `StripTrailingEntitiesLine`. */
module Entities {
  import opened Collections
  import opened CappedMerge
  import opened Text
  import opened Facts

  predicate IsLineEnd(c: char) { c == '\n' || c == '\r' || c == ' ' }

  function SkipLineEndBack(s: string, n: nat): (r: nat)
    requires n <= |s|
    ensures r <= n
  {
    if n > 0 && IsLineEnd(s[n - 1]) then SkipLineEndBack(s, n - 1) else n
  }

  /** `strings.TrimRight` with the cut set newline, carriage return, blank. */
  function TrimLineEnd(s: string): string {
    s[..SkipLineEndBack(s, |s|)]
  }

  datatype Reply = Reply(body: string, entities: seq<string>)

  /** The text before the last line, and the last line. */
  function LastLine(text: string): (r: (string, string))
  {
    var nl := LastIndexOf(text, '\n');
    if nl >= 0 then (TrimLineEnd(text[..nl]), TrimSpace(text[nl + 1..])) else ("", TrimSpace(text))
  }

  const WORD := "ENTITIES"

  predicate IsEntitiesLine(lower: Lower, line: string) {
    var colon := IndexOf(line, ':');
    colon > 0 && EqualFold(lower, TrimSpace(line[..colon]), WORD)
  }

  /** The cap that a requested cap amounts to. */
  function Room(cap: int): nat { Max(cap, 1) }

  /** What `StripTrailingEntitiesLine` returns. */
  function Parsed(lower: Lower, content: string, cap: int): Reply {
    var text := TrimLineEnd(content);
    var (prefix, line) := LastLine(text);
    if text != "" && line != "" && IsEntitiesLine(lower, line) then
      var raw := TrimSpace(line[IndexOf(line, ':') + 1..]);
      Reply(TrimSpace(prefix), Deduped(lower, Strip(Spelling(lower), Split(raw, ',')), Room(cap)))
    else
      Reply(text, [])
  }

  method StripTrailingEntitiesLine(lower: Lower, content: string, cap: int) returns (reply: Reply)
    ensures reply == Parsed(lower, content, cap)
  {
    var text := TrimLineEnd(content);
    if text == "" {
      return Reply(text, []);
    }
    var lastNL := LastIndexOf(text, '\n');
    var line, prefix;
    if lastNL >= 0 {
      line, prefix := TrimSpace(text[lastNL + 1..]), TrimLineEnd(text[..lastNL]);
    } else {
      line, prefix := TrimSpace(text), "";
    }
    assert LastLine(text) == (prefix, line);
    if line == "" || !IsEntitiesLine(lower, line) {
      return Reply(text, []);
    }
    var parts := Split(TrimSpace(line[IndexOf(line, ':') + 1..]), ',');
    var entities := CollectParts(lower, parts);
    entities := DedupeLimited(Spelling(lower), entities, cap);
    reply := Reply(TrimSpace(prefix), entities);
  }

  /** The loop that trims the comma-separated parts and drops the blank ones. */
  method CollectParts(lower: Lower, parts: seq<string>) returns (entities: seq<string>)
    ensures entities == Strip(Spelling(lower), parts)
  {
    entities := [];
    for i := 0 to |parts|
      invariant entities == Strip(Spelling(lower), parts[..i])
    {
      StripSnoc(Spelling(lower), parts, i);
      var p := TrimSpace(parts[i]);
      if p != "" {
        entities := entities + [p];
      }
    }
    assert parts[..|parts|] == parts;
  }

  // ---------------------------------------------------------------- round trip

  /** Entities that can be written on one comma-separated line and read back. */
  predicate Writable(lower: Lower, entities: seq<string>) {
    && (forall i :: 0 <= i < |entities| ==>
          entities[i] != "" && Trimmed(entities[i]) && ',' !in entities[i] && '\n' !in entities[i])
    && (forall i, j :: 0 <= i < j < |entities| ==> LowerAll(lower, entities[i]) != LowerAll(lower, entities[j]))
  }

  lemma {:induction false} SkipLineEndBackStops(s: string, n: nat)
    requires n <= |s|
    ensures var r := SkipLineEndBack(s, n);
      (0 < r ==> !IsLineEnd(s[r - 1])) && forall k :: r <= k < n ==> IsLineEnd(s[k])
  {
    if n > 0 && IsLineEnd(s[n - 1]) {
      SkipLineEndBackStops(s, n - 1);
    }
  }

  lemma TrimLineEndInside(s: string)
    ensures TrimSpace(TrimLineEnd(s)) == TrimSpace(s)
  {
    var n := SkipLineEndBack(s, |s|);
    SkipLineEndBackStops(s, |s|);
    assert Blank(s[n..]);
    assert s == "" + s[..n] + s[n..];
    TrimSpaceAround("", s[..n], s[n..]);
  }

  /** Nothing is cut from a text whose last character is not a line end. */
  lemma TrimLineEndIs(t: string, b: string)
    requires t != "" && !IsLineEnd(t[|t| - 1]) && forall k :: 0 <= k < |b| ==> IsLineEnd(b[k])
    ensures TrimLineEnd(t + b) == t
  {
    var s := t + b;
    SkipLineEndBackStops(s, |s|);
    assert s[|t| - 1] == t[|t| - 1];
    assert forall k :: |t| <= k < |s| ==> s[k] == b[k - |t|];
    assert s[..|t|] == t;
  }

  lemma {:induction false} JoinShape(lower: Lower, e: seq<string>)
    requires Writable(lower, e)
    ensures Trimmed(Join(e, ", ")) && '\n' !in Join(e, ", ")
    ensures Join(e, ", ") == "" <==> e == []
  {
    if |e| >= 2 {
      JoinShape(lower, e[1..]);
      var rest := Join(e[1..], ", ");
      var j := e[0] + ", " + rest;
      assert j[0] == e[0][0] && j[|j| - 1] == rest[|rest| - 1];
    }
  }

  /** `Strip` on the pieces of a comma-separated list. */
  function Pieces(lower: Lower, s: string): seq<string> {
    Strip(Spelling(lower), Split(s, ','))
  }

  lemma StripFirst(lower: Lower, x: string, rest: seq<string>)
    ensures Strip(Spelling(lower), [x] + rest)
         == (if TrimSpace(x) == "" then [] else [TrimSpace(x)]) + Strip(Spelling(lower), rest)
  {
    StripConcat(Spelling(lower), [x], rest);
    assert [x][..0] == [];
  }

  lemma PiecesOne(lower: Lower, x: string)
    requires ',' !in x
    ensures Pieces(lower, x) == if TrimSpace(x) == "" then [] else [TrimSpace(x)]
  {
    IndexFromNone(x, ',', 0);
    assert [x] + [] == [x];
    StripFirst(lower, x, []);
  }

  lemma PiecesMore(lower: Lower, x: string, rest: string)
    requires ',' !in x && TrimSpace(x) != ""
    ensures Pieces(lower, x + [','] + rest) == [TrimSpace(x)] + Pieces(lower, rest)
  {
    var s := x + [','] + rest;
    assert s[..|x|] == x && s[|x| + 1..] == rest;
    IndexOfIs(x, ',', rest);
    StripFirst(lower, x, Split(rest, ','));
  }

  lemma Padded(pad: string, x: string)
    requires Trimmed(x) && Blank(pad)
    ensures TrimSpace(pad + x) == x
  {
    TrimSpaceIs(pad, x, "");
    assert pad + x + "" == pad + x;
  }

  /** Reading back the comma-separated list, with or without a blank in front. */
  lemma {:induction false} SplitJoin(lower: Lower, e: seq<string>, pad: string)
    requires Writable(lower, e) && (pad == "" || pad == " ")
    ensures Pieces(lower, pad + Join(e, ", ")) == e
    decreases |e|
  {
    if e == [] {
      Padded(pad, "");
      assert pad + Join(e, ", ") == pad + "" == pad;
      PiecesOne(lower, pad);
    } else {
      var first, rest := e[0], e[1..];
      assert e == [first] + rest;
      Padded(pad, first);
      if rest == [] {
        PiecesOne(lower, pad + first);
      } else {
        SplitJoin(lower, rest, " ");
        JoinMore(e, pad);
        PiecesMore(lower, pad + first, " " + Join(rest, ", "));
      }
    }
  }

  lemma JoinMore(e: seq<string>, pad: string)
    requires |e| >= 2
    ensures pad + Join(e, ", ") == (pad + e[0]) + [','] + (" " + Join(e[1..], ", "))
  {
    assert Join(e, ", ") == e[0] + ", " + Join(e[1..], ", ");
  }

  // ---------------------------------------------------------------- any reply

  /** The part of the line before its first colon is `word`. */
  predicate KeyedBy(line: string, word: string) {
    ':' !in word && |word| < |line| && line[..|word|] == word && line[|word|] == ':'
  }

  /** A reply cut at its last line break, with the line ends at its end cut off. */
  predicate IsCut(prefix: string, line: string, tail: string) {
    && (prefix == "" || prefix[|prefix| - 1] == '\n')
    && '\n' !in line && line != "" && !IsLineEnd(line[|line| - 1])
    && forall k :: 0 <= k < |tail| ==> IsLineEnd(tail[k])
  }

  lemma LastLineOf(prefix: string, line: string, tail: string)
    requires IsCut(prefix, line, tail)
    ensures TrimLineEnd(prefix + line + tail) == prefix + line
    ensures LastLine(prefix + line).1 == TrimSpace(line)
    ensures TrimSpace(LastLine(prefix + line).0) == TrimSpace(prefix)
  {
    var text := prefix + line;
    assert text[|text| - 1] == line[|line| - 1];
    TrimLineEndIs(text, tail);
    if prefix == "" {
      LastIndexNone(line, '\n', |line|);
      assert text == line;
    } else {
      var front := prefix[..|prefix| - 1];
      assert text == front + ['\n'] + line;
      LastIndexIs(front, '\n', line, |text|);
      assert text[|front| + 1..] == line && text[..|front|] == front;
      TrimLineEndInside(front);
      TrimSpaceAround("", front, ['\n']);
      assert prefix == "" + front + ['\n'];
    }
  }

  lemma ColonInside(a: string, t: string, b: string, word: string)
    requires Blank(a) && Blank(b) && KeyedBy(a + t + b, word)
    ensures var k := |word| - |a|;
      0 <= k < |t| && t[k] == ':' && ':' !in t[..k] && word == a + t[..k]
      && (a + t + b)[|word| + 1..] == t[k + 1..] + b
  {
    var line, k := a + t + b, |word| - |a|;
    assert forall i :: 0 <= i < |a| ==> line[i] == a[i];
    assert forall i :: |a| + |t| <= i < |line| ==> line[i] == b[i - |a| - |t|];
    assert forall i :: 0 <= i < k ==> t[i] == word[i + |a|];
  }

  /** The first colon of a trimmed line, seen in the line itself. */
  lemma ColonOf(line: string, word: string)
    requires KeyedBy(line, word)
    ensures var t := TrimSpace(line); var k := IndexOf(t, ':');
      0 <= k < |t| && TrimSpace(t[..k]) == TrimSpace(word) && TrimSpace(t[k + 1..]) == TrimSpace(line[|word| + 1..])
  {
    var a, b := TrimSpaceSplits(line);
    var t, k := TrimSpace(line), |word| - |a|;
    ColonInside(a, t, b, word);
    ColonSplits(a, t, b, k);
  }

  lemma ColonSplits(a: string, t: string, b: string, k: nat)
    requires Blank(a) && Blank(b) && k < |t| && t[k] == ':' && ':' !in t[..k]
    ensures IndexOf(t, ':') == k
    ensures TrimSpace(t[..k]) == TrimSpace(a + t[..k]) && TrimSpace(t[k + 1..]) == TrimSpace(t[k + 1..] + b)
  {
    assert t == t[..k] + [':'] + t[k + 1..];
    IndexOfIs(t[..k], ':', t[k + 1..]);
    assert a + t[..k] + "" == a + t[..k];
    TrimSpaceAround(a, t[..k], "");
    assert "" + t[k + 1..] + b == t[k + 1..] + b;
    TrimSpaceAround("", t[k + 1..], b);
  }

  lemma WordOf(line: string)
    requires IndexOf(TrimSpace(line), ':') >= 0
    ensures exists word :: KeyedBy(line, word)
  {
    var a, b := TrimSpaceSplits(line);
    var t := TrimSpace(line);
    var k := IndexOf(t, ':');
    var word := a + t[..k];
    IndexIsFirst(t, ':', 0);
    assert line[|word|] == t[k] && line[..|word|] == word;
    assert KeyedBy(line, word);
  }

  /** A reply whose last line is not keyed by the word, in any case, is returned as it is but for the
      line ends at its end, with no entities. */
  lemma PlainTextStays(lower: Lower, prefix: string, line: string, tail: string, cap: int)
    requires IsCut(prefix, line, tail)
    requires forall word :: KeyedBy(line, word) ==> !EqualFold(lower, TrimSpace(word), "ENTITIES")
    ensures Parsed(lower, prefix + line + tail, cap) == Reply(prefix + line, [])
  {
    LastLineOf(prefix, line, tail);
    if IndexOf(TrimSpace(line), ':') >= 0 {
      WordOf(line);
      var word :| KeyedBy(line, word);
      ColonOf(line, word);
    }
  }

  /** Otherwise the rest of the reply, trimmed, is the body, and the pieces of the line are the entities. */
  lemma EntitiesLineIsRead(lower: Lower, prefix: string, line: string, tail: string, word: string, cap: int)
    requires IsCut(prefix, line, tail) && KeyedBy(line, word) && EqualFold(lower, TrimSpace(word), "ENTITIES")
    ensures Parsed(lower, prefix + line + tail, cap) == Reply(TrimSpace(prefix),
      Deduped(lower, Pieces(lower, TrimSpace(line[|word| + 1..])), Room(cap)))
  {
    LastLineOf(prefix, line, tail);
    ColonOf(line, word);
  }

  // ---------------------------------------------------------------- the written form

  function Cut(payload: string): string {
    if payload == "" then " " else ""
  }

  /** A line `word: payload` without trailing blanks. */
  function KeyedLine(word: string, payload: string): string {
    word + [':'] + (if payload == "" then "" else " " + payload)
  }

  lemma KeyedLineShape(word: string, payload: string)
    requires word != "" && Trimmed(word) && Trimmed(payload)
    requires '\n' !in word && '\n' !in payload
    ensures var line := KeyedLine(word, payload);
      Trimmed(line) && line != "" && !IsLineEnd(line[|line| - 1]) && '\n' !in line
      && word + ": " + payload == line + Cut(payload)
  {
    var line := KeyedLine(word, payload);
    assert line[|line| - 1] == if payload == "" then ':' else payload[|payload| - 1];
  }

  lemma KeyedLineRest(word: string, payload: string)
    requires ':' !in word && Trimmed(payload)
    ensures KeyedBy(KeyedLine(word, payload), word)
    ensures TrimSpace(KeyedLine(word, payload)[|word| + 1..]) == payload
  {
    var pad := if payload == "" then "" else " ";
    assert KeyedLine(word, payload)[|word| + 1..] == pad + payload;
    Padded(pad, payload);
  }

  lemma ParseWritten(lower: Lower, body: string, payload: string, cap: int)
    requires Trimmed(payload) && '\n' !in payload
    ensures Parsed(lower, body + ['\n'] + (WORD + ": " + payload), cap)
         == Reply(TrimSpace(body), Deduped(lower, Pieces(lower, payload), Room(cap)))
  {
    var prefix, line, tail := body + ['\n'], KeyedLine(WORD, payload), Cut(payload);
    KeyedLineShape(WORD, payload);
    KeyedLineRest(WORD, payload);
    TrimmedStays(WORD);
    EntitiesLineIsRead(lower, prefix, line, tail, WORD, cap);
    assert prefix + line + tail == body + ['\n'] + (line + tail);
    assert prefix == "" + body + ['\n'];
    TrimSpaceAround("", body, ['\n']);
  }

  lemma WritableStays(lower: Lower, e: seq<string>, cap: nat)
    requires Writable(lower, e) && |e| <= cap
    ensures Deduped(lower, e, cap) == e
  {
    forall i | 0 <= i < |e| ensures TrimSpace(e[i]) == e[i] {
      TrimmedStays(e[i]);
    }
    NormalIsFixed(Spelling(lower), e);
    InjectiveIsFixed(Spelling(lower).key, e);
  }

  /** Writing a body and an entities line, then parsing the result, returns the trimmed body and
      exactly the entities that were written. */
  lemma EntitiesRoundTrip(lower: Lower, body: string, e: seq<string>, cap: int)
    requires Writable(lower, e) && |e| <= cap
    ensures Parsed(lower, body + ['\n'] + (WORD + ": " + Join(e, ", ")), cap) == Reply(TrimSpace(body), e)
  {
    var payload := Join(e, ", ");
    JoinShape(lower, e);
    ParseWritten(lower, body, payload, cap);
    SplitJoin(lower, e, "");
    assert "" + payload == payload;
    WritableStays(lower, e, Room(cap));
  }

  // ---------------------------------------------------------------- summaries

  method StringsJoinComma(parts: seq<string>) returns (s: string)
    ensures s == Join(parts, ", ")
  {
    if |parts| == 0 {
      return "";
    }
    if |parts| == 1 {
      return parts[0];
    }
    s := "";
    for i := 0 to |parts|
      invariant s == Join(parts[..i], ", ")
    {
      JoinStep(parts, i, ", ");
      if i > 0 {
        s := s + ", ";
      }
      s := s + parts[i];
    }
    assert parts[..|parts|] == parts;
  }

  lemma JoinStep(parts: seq<string>, i: nat, sep: string)
    requires i < |parts|
    ensures Join(parts[..i + 1], sep) == if i > 0 then Join(parts[..i], sep) + sep + parts[i] else parts[i]
  {
    JoinSnoc(parts[..i], parts[i], sep);
    assert parts[..i + 1] == parts[..i] + [parts[i]];
  }

  lemma {:induction false} JoinSnoc(parts: seq<string>, last: string, sep: string)
    ensures Join(parts + [last], sep) == if parts == [] then last else Join(parts, sep) + sep + last
  {
    if |parts| >= 2 {
      JoinSnoc(parts[1..], last, sep);
      assert (parts + [last])[1..] == parts[1..] + [last];
    } else if |parts| == 1 {
      assert (parts + [last])[1..] == [last];
    }
  }
}
