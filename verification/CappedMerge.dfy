/** Keeping only the first item of every key, and capping the result: the algebra behind the fact
    merging code, for items of any type. */
module CappedMerge {
  import opened Collections

  function Take<T>(s: seq<T>, n: nat): (t: seq<T>)
    ensures |t| == Min(|s|, n)
  {
    if |s| <= n then s else s[..n]
  }

  function Keys<T, K>(key: T -> K, s: seq<T>): set<K> {
    set i | 0 <= i < |s| :: key(s[i])
  }

  function Distinct<T, K(==)>(key: T -> K, s: seq<T>): (out: seq<T>)
    ensures |out| <= |s|
  {
    if s == [] then []
    else
      var out := Distinct(key, s[..|s| - 1]);
      if key(s[|s| - 1]) in Keys(key, out) then out else out + [s[|s| - 1]]
  }

  predicate Injective<T, K(==)>(key: T -> K, s: seq<T>) {
    forall i, j :: 0 <= i < j < |s| ==> key(s[i]) != key(s[j])
  }

  lemma KeysSnoc<T, K>(key: T -> K, s: seq<T>, x: T)
    ensures Keys(key, s + [x]) == Keys(key, s) + {key(x)}
  {
    var t := s + [x];
    assert forall i :: 0 <= i < |s| ==> t[i] == s[i];
    assert t[|s|] == x;
  }

  lemma KeysConcat<T, K>(key: T -> K, a: seq<T>, b: seq<T>)
    ensures Keys(key, a + b) == Keys(key, a) + Keys(key, b)
  {
    var t := a + b;
    assert forall i :: 0 <= i < |a| ==> t[i] == a[i];
    assert forall i :: 0 <= i < |b| ==> t[|a| + i] == b[i];
  }

  lemma {:induction false} KeysSize<T, K>(key: T -> K, s: seq<T>)
    ensures |Keys(key, s)| <= |s|
  {
    if s != [] {
      KeysSize(key, s[..|s| - 1]);
      assert s == s[..|s| - 1] + [s[|s| - 1]];
      KeysSnoc(key, s[..|s| - 1], s[|s| - 1]);
    }
  }

  lemma DistinctSnoc<T, K>(key: T -> K, s: seq<T>, x: T)
    ensures Distinct(key, s + [x]) ==
      var out := Distinct(key, s);
      if key(x) in Keys(key, out) then out else out + [x]
  {
    assert (s + [x])[..|s|] == s;
  }

  /** The members of `s` whose key is not in `keys`, in order. */
  function Outside<T, K(==)>(key: T -> K, keys: set<K>, s: seq<T>): (out: seq<T>)
    ensures |out| <= |s|
  {
    if s == [] then []
    else
      var out := Outside(key, keys, s[..|s| - 1]);
      if key(s[|s| - 1]) in keys then out else out + [s[|s| - 1]]
  }

  lemma {:induction false} OutsideKeys<T, K>(key: T -> K, keys: set<K>, s: seq<T>)
    ensures Keys(key, Outside(key, keys, s)) == Keys(key, s) - keys
  {
    if s != [] {
      var front, last := s[..|s| - 1], s[|s| - 1];
      OutsideKeys(key, keys, front);
      assert s == front + [last];
      KeysSnoc(key, front, last);
      KeysSnoc(key, Outside(key, keys, front), last);
    }
  }

  lemma {:induction false} OutsideConcat<T, K>(key: T -> K, keys: set<K>, s: seq<T>, t: seq<T>)
    ensures Outside(key, keys, s + t) == Outside(key, keys, s) + Outside(key, keys, t)
    decreases |t|
  {
    if t == [] {
      assert s + t == s;
    } else {
      var front, x := t[..|t| - 1], t[|t| - 1];
      OutsideConcat(key, keys, s, front);
      assert s + t == (s + front) + [x] && t == front + [x];
      OutsideSnoc(key, keys, s + front, x);
      OutsideSnoc(key, keys, front, x);
    }
  }

  /** A list without repeated keys has no more members under `keys` than there are keys. */
  lemma {:induction false} OutsideCount<T, K>(key: T -> K, keys: set<K>, s: seq<T>)
    requires Injective(key, s)
    ensures |s| - |Outside(key, keys, s)| <= |keys * Keys(key, s)|
  {
    if s != [] {
      var front, last := s[..|s| - 1], s[|s| - 1];
      OutsideCount(key, keys, front);
      assert s == front + [last];
      KeysSnoc(key, front, last);
      assert key(last) !in Keys(key, front);
      if key(last) in keys {
        assert keys * Keys(key, s) == keys * Keys(key, front) + {key(last)};
      } else {
        assert keys * Keys(key, s) == keys * Keys(key, front);
      }
    }
  }

  lemma {:induction false} DistinctIsInjective<T, K>(key: T -> K, s: seq<T>)
    ensures Injective(key, Distinct(key, s))
  {
    if s != [] {
      DistinctIsInjective(key, s[..|s| - 1]);
    }
  }

  lemma {:induction false} InjectiveIsFixed<T, K>(key: T -> K, s: seq<T>)
    requires Injective(key, s)
    ensures Distinct(key, s) == s
  {
    if s != [] {
      var front, last := s[..|s| - 1], s[|s| - 1];
      InjectiveIsFixed(key, front);
      assert s == front + [last];
    }
  }

  lemma OutsideSnoc<T, K>(key: T -> K, keys: set<K>, s: seq<T>, x: T)
    ensures Outside(key, keys, s + [x]) ==
      Outside(key, keys, s) + if key(x) in keys then [] else [x]
  {
    assert (s + [x])[..|s|] == s;
  }

  /** The keys seen so far when `b` follows `a`. */
  lemma KeysAfter<T, K>(key: T -> K, a: seq<T>, b: seq<T>)
    ensures Keys(key, a + Outside(key, Keys(key, a), b)) == Keys(key, a) + Keys(key, b)
  {
    KeysConcat(key, a, Outside(key, Keys(key, a), b));
    OutsideKeys(key, Keys(key, a), b);
  }

  /** The distinct items of a concatenation: those of the left, then the new ones of the right. */
  lemma {:induction false} DistinctConcat<T, K>(key: T -> K, a: seq<T>, b: seq<T>)
    ensures Distinct(key, a + b)
         == Distinct(key, a) + Outside(key, Keys(key, Distinct(key, a)), Distinct(key, b))
    decreases |b|
  {
    if b == [] {
      assert a + b == a;
    } else {
      var front, x := b[..|b| - 1], b[|b| - 1];
      assert b == front + [x] && a + b == (a + front) + [x];
      DistinctConcat(key, a, front);
      DistinctConcatStep(key, a, front, x);
    }
  }

  lemma AppendLast<T>(a: seq<T>, b: seq<T>, x: T)
    ensures a + (b + [x]) == a + b + [x] && b + [] == b
  {
  }

  lemma DistinctConcatStep<T, K>(key: T -> K, a: seq<T>, front: seq<T>, x: T)
    requires Distinct(key, a + front)
          == Distinct(key, a) + Outside(key, Keys(key, Distinct(key, a)), Distinct(key, front))
    ensures Distinct(key, a + front + [x])
         == Distinct(key, a) + Outside(key, Keys(key, Distinct(key, a)), Distinct(key, front + [x]))
  {
    var da, df := Distinct(key, a), Distinct(key, front);
    KeysAfter(key, da, df);
    DistinctSnoc(key, a + front, x);
    DistinctSnoc(key, front, x);
    if key(x) !in Keys(key, df) {
      OutsideSnoc(key, Keys(key, da), df, x);
      AppendLast(da, Outside(key, Keys(key, da), df), x);
    }
  }

  /** Capping after the fact: the first `cap` distinct items. */
  function Capped<T, K(==)>(key: T -> K, s: seq<T>, cap: nat): seq<T> {
    Take(Distinct(key, s), cap)
  }

  /** What has been kept so far is final once the cap is reached. */
  lemma CappedIsFinal<T, K>(key: T -> K, s: seq<T>, t: seq<T>, cap: nat)
    requires |Distinct(key, s)| >= cap
    ensures Capped(key, s + t, cap) == Capped(key, s, cap)
  {
    DistinctConcat(key, s, t);
  }

  lemma FullPrefix<T, K>(key: T -> K, a: seq<T>, ta: seq<T>)
    requires ta <= Distinct(key, a)
    ensures Distinct(key, ta) == ta
  {
    DistinctIsInjective(key, a);
    InjectiveIsFixed(key, ta);
  }

  /** Cleaning the left operand first changes nothing. */
  lemma CappedLeft<T, K>(key: T -> K, a: seq<T>, b: seq<T>, cap: nat)
    ensures Capped(key, Capped(key, a, cap) + b, cap) == Capped(key, a + b, cap)
  {
    var ta := Capped(key, a, cap);
    DistinctConcat(key, a, b);
    if |Distinct(key, a)| <= cap {
      DistinctIsInjective(key, a);
      InjectiveIsFixed(key, ta);
      DistinctConcat(key, ta, b);
    } else {
      FullPrefix(key, a, ta);
      CappedIsFinal(key, ta, b, cap);
    }
  }

  /** Cleaning and capping the right operand first changes nothing either. */
  lemma CappedRight<T, K>(key: T -> K, a: seq<T>, b: seq<T>, cap: nat)
    ensures Capped(key, a + Capped(key, b, cap), cap) == Capped(key, a + b, cap)
  {
    var da, db := Distinct(key, a), Distinct(key, b);
    var keys, tb := Keys(key, da), Take(db, cap);
    DistinctIsInjective(key, b);
    InjectiveIsFixed(key, tb);
    DistinctConcat(key, a, b);
    DistinctConcat(key, a, tb);
    TakeWithin(key, da, db, cap);
  }

  /** Capping the right part of a concatenation first changes nothing within the cap. */
  lemma TakeWithin<T, K>(key: T -> K, da: seq<T>, db: seq<T>, cap: nat)
    requires Injective(key, db)
    ensures Take(da + Outside(key, Keys(key, da), Take(db, cap)), cap)
         == Take(da + Outside(key, Keys(key, da), db), cap)
  {
    var keys, tb := Keys(key, da), Take(db, cap);
    if |db| > cap {
      assert db == tb + db[cap..];
      OutsideConcat(key, keys, tb, db[cap..]);
      EnoughOutside(key, da, tb);
      TakePrefix(da, Outside(key, keys, tb), Outside(key, keys, db[cap..]), cap);
    }
  }

  /** A list without repeated keys behind another one: the two hold at least as many distinct items. */
  lemma EnoughOutside<T, K>(key: T -> K, a: seq<T>, b: seq<T>)
    requires Injective(key, b)
    ensures |a| + |Outside(key, Keys(key, a), b)| >= |b|
  {
    OutsideCount(key, Keys(key, a), b);
    KeysSize(key, a);
    SubsetSize(Keys(key, a) * Keys(key, b), Keys(key, a));
  }

  lemma TakePrefix<T>(a: seq<T>, b: seq<T>, c: seq<T>, n: nat)
    requires |a| + |b| >= n
    ensures Take(a + (b + c), n) == Take(a + b, n)
  {
  }

  // ---------------------------------------------------------------- normalising items first

  /** How items are compared: `trim` normalises one, `blank` is the normal form that is dropped,
      and normalised items with equal `key` count as the same. */
  datatype Rule<!T, !K> = Rule(trim: T -> T, blank: T, key: T -> K)

  /** The items of `s`, normalised, without the blank ones. */
  function Strip<T(==), K>(r: Rule<T, K>, s: seq<T>): (out: seq<T>)
    ensures |out| <= |s|
  {
    if s == [] then []
    else
      var out := Strip(r, s[..|s| - 1]);
      var k := r.trim(s[|s| - 1]);
      if k == r.blank then out else out + [k]
  }

  function Dedupe<T(==), K(==)>(r: Rule<T, K>, s: seq<T>, cap: nat): seq<T> {
    Capped(r.key, Strip(r, s), cap)
  }

  lemma StripSnoc<T, K>(r: Rule<T, K>, s: seq<T>, i: nat)
    requires i < |s|
    ensures Strip(r, s[..i + 1]) == Strip(r, s[..i]) + if r.trim(s[i]) == r.blank then [] else [r.trim(s[i])]
  {
    assert s[..i + 1][..i] == s[..i];
  }

  lemma {:induction false} StripConcat<T, K>(r: Rule<T, K>, a: seq<T>, b: seq<T>)
    ensures Strip(r, a + b) == Strip(r, a) + Strip(r, b)
    decreases |b|
  {
    if b == [] {
      assert a + b == a;
    } else {
      StripConcat(r, a, b[..|b| - 1]);
      assert (a + b)[..|a + b| - 1] == a + b[..|b| - 1];
    }
  }

  predicate Normal<T(==), K>(r: Rule<T, K>, s: seq<T>) {
    forall i :: 0 <= i < |s| ==> s[i] != r.blank && r.trim(s[i]) == s[i]
  }

  lemma {:induction false} StripIsNormal<T, K>(r: Rule<T, K>, s: seq<T>)
    requires forall x :: r.trim(r.trim(x)) == r.trim(x)
    ensures Normal(r, Strip(r, s))
  {
    if s != [] {
      StripIsNormal(r, s[..|s| - 1]);
    }
  }

  lemma {:induction false} NormalIsFixed<T, K>(r: Rule<T, K>, s: seq<T>)
    requires Normal(r, s)
    ensures Strip(r, s) == s
  {
    if s != [] {
      NormalIsFixed(r, s[..|s| - 1]);
      assert s == s[..|s| - 1] + [s[|s| - 1]];
    }
  }

  lemma {:induction false} DistinctIsNormal<T, K>(r: Rule<T, K>, s: seq<T>)
    requires Normal(r, s)
    ensures Normal(r, Distinct(r.key, s))
  {
    if s != [] {
      DistinctIsNormal(r, s[..|s| - 1]);
    }
  }

  lemma DedupeIsStripped<T, K>(r: Rule<T, K>, s: seq<T>, cap: nat)
    requires forall x :: r.trim(r.trim(x)) == r.trim(x)
    ensures Strip(r, Dedupe(r, s, cap)) == Dedupe(r, s, cap)
  {
    StripIsNormal(r, s);
    DistinctIsNormal(r, Strip(r, s));
    NormalIsFixed(r, Dedupe(r, s, cap));
  }

  /** Cleaning and capping either operand of a concatenation first changes nothing. */
  lemma DedupeAbsorbs<T, K>(r: Rule<T, K>, a: seq<T>, b: seq<T>, cap: nat)
    requires forall x :: r.trim(r.trim(x)) == r.trim(x)
    ensures Dedupe(r, Dedupe(r, a, cap) + b, cap) == Dedupe(r, a + b, cap)
    ensures Dedupe(r, a + Dedupe(r, b, cap), cap) == Dedupe(r, a + b, cap)
  {
    StripConcat(r, a, b);
    DedupeIsStripped(r, a, cap);
    StripConcat(r, Dedupe(r, a, cap), b);
    CappedLeft(r.key, Strip(r, a), Strip(r, b), cap);
    DedupeIsStripped(r, b, cap);
    StripConcat(r, a, Dedupe(r, b, cap));
    CappedRight(r.key, Strip(r, a), Strip(r, b), cap);
  }

  function Flatten<T>(groups: seq<seq<T>>): seq<T> {
    if groups == [] then [] else Flatten(groups[..|groups| - 1]) + groups[|groups| - 1]
  }

  /** Merging list after list, each already cleaned and capped on its own. */
  function Staged<T(==), K(==)>(r: Rule<T, K>, groups: seq<seq<T>>, cap: nat): seq<T> {
    if groups == [] then []
    else Dedupe(r, Staged(r, groups[..|groups| - 1], cap) + Dedupe(r, groups[|groups| - 1], cap), cap)
  }

  /** Staged merging of any number of lists equals merging their concatenation in one go. */
  lemma {:induction false} StagedIsOneShot<T, K>(r: Rule<T, K>, groups: seq<seq<T>>, cap: nat)
    requires forall x :: r.trim(r.trim(x)) == r.trim(x)
    ensures Staged(r, groups, cap) == Dedupe(r, Flatten(groups), cap)
  {
    if groups != [] {
      var front, last := groups[..|groups| - 1], groups[|groups| - 1];
      StagedIsOneShot(r, front, cap);
      DedupeAbsorbs(r, Staged(r, front, cap), last, cap);
      DedupeAbsorbs(r, Flatten(front), last, cap);
    }
  }

  // ---------------------------------------------------------------- the loops

  /** One more item for the loops below: what the kept list becomes. */
  lemma KeepOne<T, K>(r: Rule<T, K>, kept: seq<T>, s: seq<T>, i: nat)
    requires i < |s|
    ensures var k := r.trim(s[i]);
      var before := Distinct(r.key, kept + Strip(r, s[..i]));
      Distinct(r.key, kept + Strip(r, s[..i + 1])) ==
        if k == r.blank || r.key(k) in Keys(r.key, before) then before else before + [k]
  {
    var k := r.trim(s[i]);
    StripSnoc(r, s, i);
    if k == r.blank {
      assert Strip(r, s[..i + 1]) == Strip(r, s[..i]);
    } else {
      assert kept + Strip(r, s[..i + 1]) == (kept + Strip(r, s[..i])) + [k];
      DistinctSnoc(r.key, kept + Strip(r, s[..i]), k);
    }
  }

  lemma RestIsCut<T, K>(r: Rule<T, K>, kept: seq<T>, s: seq<T>, i: nat, j: nat, cap: nat)
    requires i <= j <= |s| && |Distinct(r.key, kept + Strip(r, s[..i]))| >= cap
    ensures Capped(r.key, kept + Strip(r, s[..j]), cap) == Capped(r.key, kept + Strip(r, s[..i]), cap)
  {
    assert s[..j] == s[..i] + s[i..j];
    StripConcat(r, s[..i], s[i..j]);
    assert kept + Strip(r, s[..j]) == (kept + Strip(r, s[..i])) + Strip(r, s[i..j]);
    CappedIsFinal(r.key, kept + Strip(r, s[..i]), Strip(r, s[i..j]), cap);
  }

  lemma KeepFirst<T, K>(r: Rule<T, K>, s: seq<T>, i: nat, out: seq<T>)
    requires i < |s| && out == Distinct(r.key, Strip(r, s[..i]))
    ensures var k := r.trim(s[i]);
      Distinct(r.key, Strip(r, s[..i + 1])) ==
        if k == r.blank || r.key(k) in Keys(r.key, out) then out else out + [k]
  {
    assert [] + Strip(r, s[..i]) == Strip(r, s[..i]) && [] + Strip(r, s[..i + 1]) == Strip(r, s[..i + 1]);
    KeepOne(r, [], s, i);
  }

  lemma FullAt<T, K>(r: Rule<T, K>, s: seq<T>, i: nat, out: seq<T>, cap: nat)
    requires i <= |s| && out == Distinct(r.key, Strip(r, s[..i]))
    requires |out| >= cap || i == |s|
    ensures Dedupe(r, s, cap) == Take(out, cap)
  {
    assert s[..|s|] == s && [] + Strip(r, s) == Strip(r, s) && [] + Strip(r, s[..i]) == Strip(r, s[..i]);
    if |out| >= cap {
      RestIsCut(r, [], s, i, |s|, cap);
    }
  }

  /** `x` is the normal form of some item, and of the first one with its key. */
  ghost predicate IsFirst<T, K>(r: Rule<T, K>, s: seq<T>, x: T) {
    x != r.blank
    && exists i :: 0 <= i < |s| && r.trim(s[i]) == x
                   && forall j :: 0 <= j < i && r.trim(s[j]) != r.blank ==> r.key(r.trim(s[j])) != r.key(x)
  }

  /** What is kept without a cap: the first item of every key. */
  ghost predicate AreFirsts<T, K>(r: Rule<T, K>, s: seq<T>, out: seq<T>) {
    && Injective(r.key, out) && (forall k :: 0 <= k < |out| ==> IsFirst(r, s, out[k]))
    && forall i :: 0 <= i < |s| && r.trim(s[i]) != r.blank ==> r.key(r.trim(s[i])) in Keys(r.key, out)
  }

  lemma FirstStays<T, K>(r: Rule<T, K>, s: seq<T>, n: nat, x: T)
    requires n < |s| && IsFirst(r, s[..n], x)
    ensures IsFirst(r, s[..n + 1], x)
  {
    var front, longer := s[..n], s[..n + 1];
    var i :| 0 <= i < |front| && r.trim(front[i]) == x
      && forall j :: 0 <= j < i && r.trim(front[j]) != r.blank ==> r.key(r.trim(front[j])) != r.key(x);
    assert forall j :: 0 <= j <= i ==> longer[j] == front[j];
    assert r.trim(longer[i]) == x;
  }

  /** An item whose key has not been seen yet. */
  lemma NewIsFirst<T, K>(r: Rule<T, K>, s: seq<T>, n: nat, out: seq<T>)
    requires n < |s| && AreFirsts(r, s[..n], out)
    requires r.trim(s[n]) != r.blank && r.key(r.trim(s[n])) !in Keys(r.key, out)
    ensures IsFirst(r, s[..n + 1], r.trim(s[n]))
  {
    var front, longer := s[..n], s[..n + 1];
    forall j | 0 <= j < n && r.trim(longer[j]) != r.blank ensures r.key(r.trim(longer[j])) != r.key(r.trim(s[n])) {
      assert front[j] == longer[j];
    }
    assert r.trim(longer[n]) == r.trim(s[n]);
  }

  lemma FirstsGrow<T, K>(r: Rule<T, K>, s: seq<T>, n: nat, out: seq<T>)
    requires n < |s| && AreFirsts(r, s[..n], out)
    ensures var k := r.trim(s[n]);
      AreFirsts(r, s[..n + 1], if k == r.blank || r.key(k) in Keys(r.key, out) then out else out + [k])
  {
    var k := r.trim(s[n]);
    var out' := if k == r.blank || r.key(k) in Keys(r.key, out) then out else out + [k];
    KeysSnoc(r.key, out, k);
    forall i | 0 <= i < |out'| ensures IsFirst(r, s[..n + 1], out'[i]) {
      if i < |out| {
        FirstStays(r, s, n, out[i]);
      } else {
        NewIsFirst(r, s, n, out);
      }
    }
    var longer := s[..n + 1];
    forall i | 0 <= i < |longer| && r.trim(longer[i]) != r.blank ensures r.key(r.trim(longer[i])) in Keys(r.key, out') {
      assert i < n ==> s[..n][i] == longer[i];
    }
  }

  lemma {:induction false} DistinctAreFirsts<T, K>(r: Rule<T, K>, s: seq<T>, n: nat)
    requires n <= |s|
    ensures AreFirsts(r, s[..n], Distinct(r.key, Strip(r, s[..n])))
  {
    if n == 0 {
      NoFirsts(r, s[..0]);
    } else {
      var out := Distinct(r.key, Strip(r, s[..n - 1]));
      DistinctAreFirsts(r, s, n - 1);
      KeepFirst(r, s, n - 1, out);
      FirstsGrow(r, s, n - 1, out);
    }
  }

  lemma NoFirsts<T, K>(r: Rule<T, K>, none: seq<T>)
    requires none == []
    ensures AreFirsts(r, none, Distinct(r.key, Strip(r, none)))
  {
  }

  /** What deduping returns, said without recursion: at most `cap` items, each the normal form of the
      first item with its key, no two with one key; and as long as the cap is not reached every item
      that is not blank has its key among them. */
  lemma DedupeIs<T, K>(r: Rule<T, K>, s: seq<T>, cap: nat)
    ensures var out := Dedupe(r, s, cap);
      && |out| <= cap && Injective(r.key, out) && (forall k :: 0 <= k < |out| ==> IsFirst(r, s, out[k]))
      && (|out| < cap ==>
            forall i :: 0 <= i < |s| && r.trim(s[i]) != r.blank ==> r.key(r.trim(s[i])) in Keys(r.key, out))
  {
    assert s[..|s|] == s;
    DistinctAreFirsts(r, s, |s|);
    var all := Distinct(r.key, Strip(r, s));
    assert forall k :: 0 <= k < |Take(all, cap)| ==> Take(all, cap)[k] == all[k];
  }

  /** The loop of `dedupeLimited`; it stores one item before it looks at the cap. */
  method DedupeLimited<T(==), K(==)>(r: Rule<T, K>, s: seq<T>, cap: int) returns (out: seq<T>)
    ensures out == Dedupe(r, s, Max(cap, 1))
  {
    out := [];
    var seen := {};
    for i := 0 to |s|
      invariant out == Distinct(r.key, Strip(r, s[..i])) && seen == Keys(r.key, out)
      invariant |out| < Max(cap, 1)
    {
      KeepFirst(r, s, i, out);
      var k := r.trim(s[i]);
      if k == r.blank || r.key(k) in seen {
        continue;
      }
      KeysSnoc(r.key, out, k);
      seen := seen + {r.key(k)};
      out := out + [k];
      if |out| >= cap {
        FullAt(r, s, i + 1, out, Max(cap, 1));
        return;
      }
    }
    FullAt(r, s, |s|, out, Max(cap, 1));
  }

  /** Either loop of `appendUnique`: put one more list behind what has been kept so far. Both stop
      storing once `cap` items are there, the second by leaving the loop. */
  lemma CapReached<T, K>(r: Rule<T, K>, kept: seq<T>, s: seq<T>, i: nat, out: seq<T>, cap: nat)
    requires i < |s| && out == Capped(r.key, kept + Strip(r, s[..i]), cap)
    ensures var k := r.trim(s[i]);
      Capped(r.key, kept + Strip(r, s[..i + 1]), cap) ==
        if k == r.blank || r.key(k) in Keys(r.key, out) || |out| >= cap then out else out + [k]
  {
    KeepOne(r, kept, s, i);
    if |out| >= cap {
      RestIsCut(r, kept, s, i, i + 1, cap);
    }
  }

  lemma BetweenLoops<T, K>(r: Rule<T, K>, dest: seq<T>, add: seq<T>, out: seq<T>, cap: nat)
    requires out == Capped(r.key, [] + Strip(r, dest[..|dest|]), cap)
    ensures out == Capped(r.key, Strip(r, dest) + Strip(r, add[..0]), cap)
  {
    assert dest[..|dest|] == dest;
    WithNothing(Strip(r, dest), Strip(r, add[..0]));
  }

  lemma WithNothing<T>(s: seq<T>, none: seq<T>)
    requires none == []
    ensures [] + s == s == s + none
  {
  }

  lemma AfterLoops<T, K>(r: Rule<T, K>, dest: seq<T>, add: seq<T>, out: seq<T>, cap: nat)
    requires out == Capped(r.key, Strip(r, dest) + Strip(r, add[..|add|]), cap)
    ensures out == Dedupe(r, dest + add, cap)
  {
    assert add[..|add|] == add;
    StripConcat(r, dest, add);
  }

  /** The two loops of `appendUnique`. */
  method AppendUnique<T(==), K(==)>(r: Rule<T, K>, dest: seq<T>, add: seq<T>, cap: nat) returns (out: seq<T>)
    ensures out == Dedupe(r, dest + add, cap)
  {
    out := [];
    var seen := {};
    for i := 0 to |dest|
      invariant out == Capped(r.key, [] + Strip(r, dest[..i]), cap) && seen == Keys(r.key, out)
    {
      CapReached(r, [], dest, i, out, cap);
      var k := r.trim(dest[i]);
      if k == r.blank || r.key(k) in seen || |out| >= cap {
        continue;
      }
      KeysSnoc(r.key, out, k);
      seen := seen + {r.key(k)};
      out := out + [k];
    }
    ghost var kept := Strip(r, dest);
    BetweenLoops(r, dest, add, out, cap);
    for j := 0 to |add|
      invariant out == Capped(r.key, kept + Strip(r, add[..j]), cap) && seen == Keys(r.key, out)
    {
      if |out| >= cap {
        RestIsCut(r, kept, add, j, |add|, cap);
        break;
      }
      CapReached(r, kept, add, j, out, cap);
      var k := r.trim(add[j]);
      if k == r.blank || r.key(k) in seen {
        continue;
      }
      KeysSnoc(r.key, out, k);
      seen := seen + {r.key(k)};
      out := out + [k];
    }
    AfterLoops(r, dest, add, out, cap);
  }
}
