/** The few string operations of Go's `strings` package that fact handling relies on. Case mapping
    works character by character through an arbitrary function `lower`. */
module Text {

  type Lower = char -> char

  /** Unicode white space, as `strings.TrimSpace` sees it. */
  predicate IsSpace(c: char) {
    var n := c as int;
    9 <= n <= 13 || n == 32 || n == 0x85 || n == 0xA0 || n == 0x1680 || 0x2000 <= n <= 0x200A
    || n == 0x2028 || n == 0x2029 || n == 0x202F || n == 0x205F || n == 0x3000
  }

  /** The first position from `i` on that does not hold white space. */
  function SkipSpace(s: string, i: nat): (r: nat)
    requires i <= |s|
    ensures i <= r <= |s|
    decreases |s| - i
  {
    if i < |s| && IsSpace(s[i]) then SkipSpace(s, i + 1) else i
  }

  /** The end of `s[lo..hi]` without its trailing white space. */
  function SkipSpaceBack(s: string, lo: nat, hi: nat): (r: nat)
    requires lo <= hi <= |s|
    ensures lo <= r <= hi
    decreases hi
  {
    if lo < hi && IsSpace(s[hi - 1]) then SkipSpaceBack(s, lo, hi - 1) else hi
  }

  /** A string that starts and ends with a visible character, or is empty. */
  predicate Trimmed(s: string) {
    s != "" ==> !IsSpace(s[0]) && !IsSpace(s[|s| - 1])
  }

  predicate Blank(s: string) {
    forall k :: 0 <= k < |s| ==> IsSpace(s[k])
  }

  function TrimSpace(s: string): string {
    var lo := SkipSpace(s, 0);
    s[lo..SkipSpaceBack(s, lo, |s|)]
  }

  lemma {:induction false} SkipSpaceStops(s: string, i: nat)
    requires i <= |s|
    ensures var r := SkipSpace(s, i);
      (r < |s| ==> !IsSpace(s[r])) && forall k :: i <= k < r ==> IsSpace(s[k])
    decreases |s| - i
  {
    if i < |s| && IsSpace(s[i]) {
      SkipSpaceStops(s, i + 1);
    }
  }

  lemma {:induction false} SkipSpaceBackStops(s: string, lo: nat, hi: nat)
    requires lo <= hi <= |s|
    ensures var r := SkipSpaceBack(s, lo, hi);
      (lo < r ==> !IsSpace(s[r - 1])) && forall k :: r <= k < hi ==> IsSpace(s[k])
    decreases hi
  {
    if lo < hi && IsSpace(s[hi - 1]) {
      SkipSpaceBackStops(s, lo, hi - 1);
    }
  }

  /** Where trimming cuts. */
  lemma TrimSpaceCuts(s: string) returns (lo: nat, hi: nat)
    ensures lo <= hi <= |s| && TrimSpace(s) == s[lo..hi]
    ensures forall k :: 0 <= k < lo ==> IsSpace(s[k])
    ensures forall k :: hi <= k < |s| ==> IsSpace(s[k])
    ensures lo < |s| ==> !IsSpace(s[lo])
    ensures lo < hi ==> !IsSpace(s[hi - 1])
  {
    lo := SkipSpace(s, 0);
    hi := SkipSpaceBack(s, lo, |s|);
    SkipSpaceStops(s, 0);
    SkipSpaceBackStops(s, lo, |s|);
  }

  lemma TrimSpaceTrims(s: string)
    ensures Trimmed(TrimSpace(s))
  {
    var lo, hi := TrimSpaceCuts(s);
  }

  lemma TrimmedStays(s: string)
    requires Trimmed(s)
    ensures TrimSpace(s) == s
  {
    var lo, hi := TrimSpaceCuts(s);
  }

  lemma TrimSpaceIdempotent()
    ensures forall s :: TrimSpace(TrimSpace(s)) == TrimSpace(s)
  {
    forall s ensures TrimSpace(TrimSpace(s)) == TrimSpace(s) {
      TrimSpaceTrims(s);
      TrimmedStays(TrimSpace(s));
    }
  }

  /** Trimming strips exactly the white space around the visible part. */
  lemma TrimSpaceIs(a: string, t: string, b: string)
    requires Blank(a) && Trimmed(t) && Blank(b)
    ensures TrimSpace(a + t + b) == t
  {
    var s := a + t + b;
    var lo, hi := TrimSpaceCuts(s);
    assert forall k :: 0 <= k < |a| ==> s[k] == a[k];
    assert forall k :: |a| + |t| <= k < |s| ==> s[k] == b[k - |a| - |t|];
    if t == "" {
      assert forall k :: 0 <= k < |s| ==> IsSpace(s[k]);
    } else {
      assert s[|a|] == t[0] && s[|a| + |t| - 1] == t[|t| - 1];
      assert lo == |a| && hi == |a| + |t|;
    }
  }

  /** Every string is blank, visible, blank. */
  lemma TrimSpaceSplits(s: string) returns (a: string, b: string)
    ensures Blank(a) && Blank(b) && s == a + TrimSpace(s) + b
  {
    var lo, hi := TrimSpaceCuts(s);
    a, b := s[..lo], s[hi..];
  }

  /** White space around a string does not matter. */
  lemma TrimSpaceAround(a: string, s: string, b: string)
    requires Blank(a) && Blank(b)
    ensures TrimSpace(a + s + b) == TrimSpace(s)
  {
    var c, d := TrimSpaceSplits(s);
    assert a + s + b == (a + c) + TrimSpace(s) + (d + b);
    TrimSpaceTrims(s);
    TrimSpaceIs(a + c, TrimSpace(s), d + b);
  }

  /** A string with a visible character does not trim to nothing. */
  lemma TrimSpaceVisible(s: string, k: nat)
    requires k < |s| && !IsSpace(s[k])
    ensures TrimSpace(s) != ""
  {
    var lo, hi := TrimSpaceCuts(s);
    assert lo <= k < hi;
  }

  function LowerAll(lower: Lower, s: string): (t: string)
    ensures |t| == |s|
  {
    seq(|s|, i requires 0 <= i < |s| => lower(s[i]))
  }

  predicate HasPrefix(s: string, prefix: string) {
    prefix <= s
  }

  predicate EqualFold(lower: Lower, a: string, b: string) {
    LowerAll(lower, a) == LowerAll(lower, b)
  }

  predicate Contains(s: string, sub: string) {
    exists i :: 0 <= i <= |s| && sub <= s[i..]
  }

  function IndexFrom(s: string, c: char, i: nat): (r: int)
    requires i <= |s|
    ensures r == -1 || i <= r < |s|
    decreases |s| - i
  {
    if i == |s| then -1 else if s[i] == c then i else IndexFrom(s, c, i + 1)
  }

  /** The first position of `c`, or -1. */
  function IndexOf(s: string, c: char): (r: int)
    ensures -1 <= r < |s|
  {
    IndexFrom(s, c, 0)
  }

  function LastIndexBefore(s: string, c: char, n: nat): (r: int)
    requires n <= |s|
    ensures -1 <= r < n
  {
    if n == 0 then -1 else if s[n - 1] == c then n - 1 else LastIndexBefore(s, c, n - 1)
  }

  /** The last position of `c`, or -1. */
  function LastIndexOf(s: string, c: char): (r: int)
    ensures -1 <= r < |s|
  {
    LastIndexBefore(s, c, |s|)
  }

  lemma {:induction false} IndexFromIs(a: string, c: char, b: string, i: nat)
    requires c !in a && i <= |a|
    ensures IndexFrom(a + [c] + b, c, i) == |a|
    decreases |a| - i
  {
    if i < |a| {
      assert (a + [c] + b)[i] == a[i];
      IndexFromIs(a, c, b, i + 1);
    }
  }

  lemma IndexOfIs(a: string, c: char, b: string)
    requires c !in a
    ensures IndexOf(a + [c] + b, c) == |a|
  {
    IndexFromIs(a, c, b, 0);
  }

  lemma {:induction false} IndexFromNone(s: string, c: char, i: nat)
    requires c !in s && i <= |s|
    ensures IndexFrom(s, c, i) == -1
    decreases |s| - i
  {
    if i < |s| {
      IndexFromNone(s, c, i + 1);
    }
  }

  /** There is none before the first one. */
  lemma {:induction false} IndexIsFirst(s: string, c: char, i: nat)
    requires i <= |s|
    ensures var r := IndexFrom(s, c, i);
      (r >= 0 ==> s[r] == c) && forall k :: i <= k < (if r >= 0 then r else |s|) ==> s[k] != c
    decreases |s| - i
  {
    if i < |s| && s[i] != c {
      IndexIsFirst(s, c, i + 1);
    }
  }

  lemma {:induction false} LastIndexNone(s: string, c: char, n: nat)
    requires c !in s && n <= |s|
    ensures LastIndexBefore(s, c, n) == -1
  {
    if n > 0 {
      LastIndexNone(s, c, n - 1);
    }
  }

  lemma {:induction false} LastIndexIs(a: string, c: char, b: string, n: nat)
    requires c !in b && |a| < n <= |a| + 1 + |b|
    ensures LastIndexBefore(a + [c] + b, c, n) == |a|
    decreases n
  {
    if n > |a| + 1 {
      assert (a + [c] + b)[n - 1] == b[n - 1 - |a| - 1];
      LastIndexIs(a, c, b, n - 1);
    }
  }

  /** The pieces between occurrences of `c`; always at least one piece. */
  function Split(s: string, c: char): (parts: seq<string>)
    ensures parts != []
    decreases |s|
  {
    var i := IndexOf(s, c);
    if i == -1 then [s] else [s[..i]] + Split(s[i + 1..], c)
  }

  function Join(parts: seq<string>, sep: string): string {
    if parts == [] then ""
    else if |parts| == 1 then parts[0]
    else parts[0] + sep + Join(parts[1..], sep)
  }

  // ---------------------------------------------------------------- parts of a text

  /** `s` can be read in `t`. */
  ghost predicate IsPart(s: string, t: string) {
    exists pre: string, post: string :: t == pre + s + post
  }

  lemma PartOfPart(s: string, t: string, pre: string, post: string)
    requires IsPart(s, t)
    ensures IsPart(s, pre + t + post)
  {
    var a: string, b: string :| t == a + s + b;
    assert pre + t + post == (pre + a) + s + (b + post);
  }

  lemma WholeIsPart(s: string)
    ensures IsPart(s, s)
  {
    assert s == "" + s + "";
  }

  lemma SumOfParts(s: string, a: string, b: string)
    ensures IsPart(s, a) || s == b ==> IsPart(s, a + b)
  {
    if IsPart(s, a) {
      PartOfPart(s, a, "", b);
      assert "" + a + b == a + b;
    } else if s == b {
      assert a + b == a + s + "";
    }
  }

  lemma {:induction false} JoinedIsPart(parts: seq<string>, sep: string, k: nat)
    requires k < |parts|
    ensures IsPart(parts[k], Join(parts, sep))
  {
    if |parts| == 1 {
      WholeIsPart(parts[0]);
    } else if k == 0 {
      WholeIsPart(parts[0]);
      PartOfPart(parts[0], parts[0], "", sep + Join(parts[1..], sep));
      assert "" + parts[0] + (sep + Join(parts[1..], sep)) == Join(parts, sep);
    } else {
      JoinedIsPart(parts[1..], sep, k - 1);
      PartOfPart(parts[k], Join(parts[1..], sep), parts[0] + sep, "");
      assert parts[0] + sep + Join(parts[1..], sep) + "" == Join(parts, sep);
    }
  }
}
