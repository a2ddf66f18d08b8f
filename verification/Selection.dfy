/** Greedy selection under a token budget: one bucket at a time, in priority order. */
module Selection {
  import opened Collections

  type Cost<!T> = T -> int

  function Total<T>(cost: Cost<T>, items: seq<T>): int {
    if items == [] then 0 else Total(cost, items[..|items| - 1]) + cost(items[|items| - 1])
  }

  datatype Choice<T> = Choice(selected: seq<T>, excluded: seq<T>, used: int)

  /** `selectWithinBudget`: an item is taken whenever it still fits. */
  function Choose<T>(cost: Cost<T>, items: seq<T>, budget: int): Choice<T> {
    if items == [] then Choice([], [], 0)
    else
      var c := Choose(cost, items[..|items| - 1], budget);
      var x := items[|items| - 1];
      if c.used + cost(x) <= budget then Choice(c.selected + [x], c.excluded, c.used + cost(x))
      else c.(excluded := c.excluded + [x])
  }

  /** The loop. */
  method SelectWithinBudget<T>(cost: Cost<T>, items: seq<T>, budget: int)
    returns (selected: seq<T>, excluded: seq<T>, used: int)
    ensures Choice(selected, excluded, used) == Choose(cost, items, budget)
  {
    selected, excluded, used := [], [], 0;
    for i := 0 to |items|
      invariant Choice(selected, excluded, used) == Choose(cost, items[..i], budget)
    {
      assert items[..i + 1][..i] == items[..i];
      if used + cost(items[i]) <= budget {
        selected := selected + [items[i]];
        used := used + cost(items[i]);
      } else {
        excluded := excluded + [items[i]];
      }
    }
    assert items[..|items|] == items;
  }

  ghost predicate NonNegative<T>(cost: Cost<T>, items: seq<T>) {
    forall x :: x in items ==> cost(x) >= 0
  }

  lemma TotalSnoc<T>(cost: Cost<T>, items: seq<T>, x: T)
    ensures Total(cost, items + [x]) == Total(cost, items) + cost(x)
  {
    assert (items + [x])[..|items|] == items;
  }

  /** One item more: it is taken or left out. */
  lemma ChooseStep<T>(cost: Cost<T>, items: seq<T>, budget: int)
    requires items != []
    ensures var front, x := Choose(cost, items[..|items| - 1], budget), items[|items| - 1];
      Choose(cost, items, budget) ==
        if front.used + cost(x) <= budget then Choice(front.selected + [x], front.excluded, front.used + cost(x))
        else Choice(front.selected, front.excluded + [x], front.used)
  {
  }

  lemma PartsSnoc<T>(a: seq<T>, b: seq<T>, items: seq<T>)
    requires items != [] && multiset(a) + multiset(b) == multiset(items[..|items| - 1])
    ensures var x := items[|items| - 1];
      multiset(a + [x]) + multiset(b) == multiset(items) == multiset(a) + multiset(b + [x])
  {
    MultisetSnoc(items);
  }

  lemma {:induction false} ChooseParts<T>(cost: Cost<T>, items: seq<T>, budget: int)
    ensures var c := Choose(cost, items, budget); multiset(c.selected) + multiset(c.excluded) == multiset(items)
  {
    if items != [] {
      ChooseParts(cost, items[..|items| - 1], budget);
      ChooseStep(cost, items, budget);
      var c := Choose(cost, items[..|items| - 1], budget);
      PartsSnoc(c.selected, c.excluded, items);
    }
  }

  /** Nothing is lost or invented, the cost is added up, and it stays within the budget. */
  lemma {:induction false} ChooseFits<T>(cost: Cost<T>, items: seq<T>, budget: int)
    ensures var c := Choose(cost, items, budget);
      && multiset(c.selected) + multiset(c.excluded) == multiset(items)
      && c.used == Total(cost, c.selected)
      && (budget >= 0 ==> c.used <= budget)
  {
    ChooseParts(cost, items, budget);
    if items != [] {
      var front, x := items[..|items| - 1], items[|items| - 1];
      ChooseFits(cost, front, budget);
      ChooseStep(cost, items, budget);
      TotalSnoc(cost, Choose(cost, front, budget).selected, x);
    }
  }

  /** What was left out does not fit into what is left at the end. */
  lemma {:induction false} ChooseIsMaximal<T>(cost: Cost<T>, items: seq<T>, budget: int)
    requires NonNegative(cost, items)
    ensures var c := Choose(cost, items, budget);
      c.used >= 0 && forall x :: x in c.excluded ==> c.used + cost(x) > budget
  {
    if items != [] {
      var front, x := items[..|items| - 1], items[|items| - 1];
      assert forall y :: y in front ==> y in items;
      assert x in items;
      ChooseIsMaximal(cost, front, budget);
      var c := Choose(cost, front, budget);
      forall y | y in Choose(cost, items, budget).excluded ensures Choose(cost, items, budget).used + cost(y) > budget {
        assert y in c.excluded || y == x;
      }
    }
  }

  lemma {:induction false} TotalNonNegative<T>(cost: Cost<T>, items: seq<T>)
    requires NonNegative(cost, items)
    ensures Total(cost, items) >= 0
  {
    if items != [] {
      assert forall y :: y in items[..|items| - 1] ==> y in items;
      assert items[|items| - 1] in items;
      TotalNonNegative(cost, items[..|items| - 1]);
    }
  }

  /** Everything is taken exactly if everything together fits. */
  lemma {:induction false} ChooseAllIff<T>(cost: Cost<T>, items: seq<T>, budget: int)
    requires NonNegative(cost, items) && budget >= 0
    ensures var c := Choose(cost, items, budget);
      (c.excluded == [] <==> Total(cost, items) <= budget)
      && (c.excluded == [] ==> c.selected == items && c.used == Total(cost, items))
  {
    if items != [] {
      var front, x := items[..|items| - 1], items[|items| - 1];
      assert forall y :: y in front ==> y in items;
      assert x in items;
      ChooseAllIff(cost, front, budget);
      ChooseAllStep(cost, items, budget);
    }
  }

  /** One more item is taken with all others exactly if it still fits. */
  lemma ChooseAllStep<T>(cost: Cost<T>, items: seq<T>, budget: int)
    requires items != []
    ensures var c, x := Choose(cost, items, budget), items[|items| - 1];
      var front := Choose(cost, items[..|items| - 1], budget);
      && (c.excluded == [] <==> front.excluded == [] && front.used + cost(x) <= budget)
      && (c.excluded == [] ==> c.selected == front.selected + [x] && c.used == front.used + cost(x))
      && items == items[..|items| - 1] + [x]
  {
  }

  /** The total does not depend on the order. */
  lemma {:induction false} TotalForgetsOrder<T>(cost: Cost<T>, a: seq<T>, b: seq<T>)
    requires multiset(a) == multiset(b)
    ensures Total(cost, a) == Total(cost, b)
    decreases |a|
  {
    assert |multiset(a)| == |a| && |multiset(b)| == |b|;
    if a != [] {
      var x := a[|a| - 1];
      MultisetSnoc(a);
      assert x in multiset(b);
      var k :| 0 <= k < |b| && b[k] == x;
      var b' := b[..k] + b[k + 1..];
      assert b == b[..k] + [x] + b[k + 1..];
      TotalConcat(cost, b[..k] + [x], b[k + 1..]);
      TotalConcat(cost, b[..k], [x]);
      TotalConcat(cost, b[..k], b[k + 1..]);
      assert multiset(b') == multiset(b) - multiset{x};
      assert multiset(a[..|a| - 1]) == multiset(a) - multiset{x};
      TotalForgetsOrder(cost, a[..|a| - 1], b');
      assert [x][..0] == [];
    }
  }

  lemma {:induction false} TotalConcat<T>(cost: Cost<T>, a: seq<T>, b: seq<T>)
    ensures Total(cost, a + b) == Total(cost, a) + Total(cost, b)
  {
    if b == [] {
      assert a + b == a;
    } else {
      TotalConcat(cost, a, b[..|b| - 1]);
      assert (a + b)[..|a + b| - 1] == a + b[..|b| - 1];
    }
  }

  // ---------------------------------------------------------------- over all buckets

  /** `chosen` has an entry for every bucket, empty for the buckets that are passed over. Exclusions
      are noted only for buckets from which something was taken. */
  datatype Picked<T> = Picked(chosen: seq<seq<T>>, noted: seq<T>, left: int)

  /** One more bucket. */
  function PickOne<T>(cost: Cost<T>, p: Picked<T>, bucket: seq<T>): Picked<T> {
    if p.left <= 0 || bucket == [] then p.(chosen := p.chosen + [[]])
    else
      var c := Choose(cost, bucket, p.left);
      if c.selected == [] then p.(chosen := p.chosen + [[]])
      else Picked(p.chosen + [c.selected], p.noted + c.excluded, p.left - c.used)
  }

  /** The loop over the buckets, highest priority first. */
  function Pick<T>(cost: Cost<T>, buckets: seq<seq<T>>, budget: int): Picked<T> {
    if buckets == [] then Picked([], [], budget)
    else PickOne(cost, Pick(cost, buckets[..|buckets| - 1], budget), buckets[|buckets| - 1])
  }

  lemma PickStep<T>(cost: Cost<T>, buckets: seq<seq<T>>, budget: int, i: nat)
    requires i < |buckets|
    ensures Pick(cost, buckets[..i + 1], budget) == PickOne(cost, Pick(cost, buckets[..i], budget), buckets[i])
  {
    assert buckets[..i + 1][..i] == buckets[..i];
  }

  function TotalOf<T>(cost: Cost<T>, buckets: seq<seq<T>>): int {
    if buckets == [] then 0 else TotalOf(cost, buckets[..|buckets| - 1]) + Total(cost, buckets[|buckets| - 1])
  }

  function Flat<T>(parts: seq<seq<T>>): seq<T> {
    if parts == [] then [] else Flat(parts[..|parts| - 1]) + parts[|parts| - 1]
  }

  ghost predicate AllNonNegative<T>(cost: Cost<T>, buckets: seq<seq<T>>) {
    forall i :: 0 <= i < |buckets| ==> NonNegative(cost, buckets[i])
  }

  lemma PickOneFits<T>(cost: Cost<T>, p: Picked<T>, bucket: seq<T>)
    ensures var q := PickOne(cost, p, bucket);
      && |q.chosen| == |p.chosen| + 1 && q.chosen[..|p.chosen|] == p.chosen
      && multiset(q.chosen[|p.chosen|]) <= multiset(bucket)
      && q.left == p.left - Total(cost, q.chosen[|p.chosen|])
      && (p.left >= 0 ==> 0 <= q.left) && (p.left < 0 ==> q.left == p.left)
  {
    var c := Choose(cost, bucket, p.left);
    ChooseFits(cost, bucket, p.left);
    assert multiset(c.selected) <= multiset(c.selected) + multiset(c.excluded);
  }

  /** The last bucket comes after the others and does not touch their part. */
  lemma PickLast<T>(cost: Cost<T>, buckets: seq<seq<T>>, budget: int)
    requires buckets != []
    ensures var n, p, q := |buckets| - 1, Pick(cost, buckets[..|buckets| - 1], budget), Pick(cost, buckets, budget);
      |p.chosen| == n ==>
        |q.chosen| == |buckets| && q.chosen[..n] == p.chosen && multiset(q.chosen[n]) <= multiset(buckets[n])
        && q.left == p.left - Total(cost, q.chosen[n]) && (p.left >= 0 ==> 0 <= q.left)
        && (p.left < 0 ==> q.left == p.left)
  {
    PickOneFits(cost, Pick(cost, buckets[..|buckets| - 1], budget), buckets[|buckets| - 1]);
  }

  /** The total cost of everything selected never exceeds the budget. */
  lemma {:induction false} PickFits<T>(cost: Cost<T>, buckets: seq<seq<T>>, budget: int)
    ensures var p := Pick(cost, buckets, budget);
      && |p.chosen| == |buckets| && p.left == budget - TotalOf(cost, p.chosen)
      && TotalOf(cost, p.chosen) <= Max(budget, 0)
      && (budget < 0 ==> p.left == budget) && (budget >= 0 ==> p.left >= 0)
  {
    if buckets != [] {
      PickFits(cost, buckets[..|buckets| - 1], budget);
      PickLast(cost, buckets, budget);
    }
  }

  lemma PickEarlier<T>(cost: Cost<T>, buckets: seq<seq<T>>, budget: int, i: nat)
    requires i < |buckets| - 1
    ensures i < |Pick(cost, buckets, budget).chosen| && i < |Pick(cost, buckets[..|buckets| - 1], budget).chosen|
    ensures Pick(cost, buckets, budget).chosen[i] == Pick(cost, buckets[..|buckets| - 1], budget).chosen[i]
  {
    PickFits(cost, buckets[..|buckets| - 1], budget);
    PickLast(cost, buckets, budget);
    assert Pick(cost, buckets, budget).chosen[..|buckets| - 1][i] == Pick(cost, buckets, budget).chosen[i];
  }

  /** No item is selected more often than it occurs. */
  lemma {:induction false} PickTakesNoMore<T>(cost: Cost<T>, buckets: seq<seq<T>>, budget: int, i: nat)
    requires i < |buckets|
    ensures |Pick(cost, buckets, budget).chosen| == |buckets|
    ensures multiset(Pick(cost, buckets, budget).chosen[i]) <= multiset(buckets[i])
    decreases |buckets|
  {
    PickFits(cost, buckets, budget);
    if i < |buckets| - 1 {
      PickTakesNoMore(cost, buckets[..|buckets| - 1], budget, i);
      PickEarlier(cost, buckets, budget, i);
    } else {
      PickFits(cost, buckets[..|buckets| - 1], budget);
      PickLast(cost, buckets, budget);
    }
  }

  lemma {:induction false} FlatBelow<T>(a: seq<seq<T>>, b: seq<seq<T>>)
    requires |a| == |b| && forall i :: 0 <= i < |a| ==> multiset(a[i]) <= multiset(b[i])
    ensures multiset(Flat(a)) <= multiset(Flat(b))
  {
    if a != [] {
      FlatBelow(a[..|a| - 1], b[..|b| - 1]);
    }
  }

  lemma PickOneLeaves<T>(cost: Cost<T>, p: Picked<T>, bucket: seq<T>)
    requires NonNegative(cost, bucket)
    ensures var q := PickOne(cost, p, bucket);
      q.left <= p.left
      && forall x :: x in multiset(bucket) - multiset(q.chosen[|p.chosen|]) && cost(x) > 0 ==> cost(x) > q.left
  {
    ChooseFits(cost, bucket, p.left);
    ChooseIsMaximal(cost, bucket, p.left);
    var c, q := Choose(cost, bucket, p.left), PickOne(cost, p, bucket);
    forall x | x in multiset(bucket) - multiset(q.chosen[|p.chosen|]) && cost(x) > 0 ensures cost(x) > q.left {
      if p.left > 0 && bucket != [] {
        assert multiset(bucket) - multiset(c.selected) == multiset(c.excluded);
        assert c.selected == [] ==> c.used == 0;
        assert x in c.excluded;
      }
    }
  }

  /** An item left out of bucket `i`. */
  ghost predicate LeftOut<T>(cost: Cost<T>, buckets: seq<seq<T>>, budget: int, i: nat, x: T) {
    var chosen := Pick(cost, buckets, budget).chosen;
    i < |buckets| && i < |chosen| && x in multiset(buckets[i]) - multiset(chosen[i])
  }

  lemma LeftOutEarlier<T>(cost: Cost<T>, buckets: seq<seq<T>>, budget: int, i: nat, x: T)
    requires LeftOut(cost, buckets, budget, i, x) && i < |buckets| - 1
    ensures LeftOut(cost, buckets[..|buckets| - 1], budget, i, x)
  {
    PickEarlier(cost, buckets, budget, i);
    assert buckets[..|buckets| - 1][i] == buckets[i];
  }

  lemma LeftOutLast<T>(cost: Cost<T>, buckets: seq<seq<T>>, budget: int, x: T)
    requires buckets != [] && NonNegative(cost, buckets[|buckets| - 1])
    requires LeftOut(cost, buckets, budget, |buckets| - 1, x) && cost(x) > 0
    ensures cost(x) > Pick(cost, buckets, budget).left
  {
    var n := |buckets| - 1;
    PickFits(cost, buckets[..n], budget);
    PickOneLeaves(cost, Pick(cost, buckets[..n], budget), buckets[n]);
  }

  lemma LeftFalls<T>(cost: Cost<T>, buckets: seq<seq<T>>, budget: int)
    requires buckets != [] && NonNegative(cost, buckets[|buckets| - 1])
    ensures Pick(cost, buckets, budget).left <= Pick(cost, buckets[..|buckets| - 1], budget).left
  {
    PickOneLeaves(cost, Pick(cost, buckets[..|buckets| - 1], budget), buckets[|buckets| - 1]);
  }

  lemma FrontNonNegative<T>(cost: Cost<T>, buckets: seq<seq<T>>)
    requires AllNonNegative(cost, buckets) && buckets != []
    ensures AllNonNegative(cost, buckets[..|buckets| - 1]) && NonNegative(cost, buckets[|buckets| - 1])
  {
    assert forall i :: 0 <= i < |buckets| - 1 ==> buckets[..|buckets| - 1][i] == buckets[i];
  }

  /** No item of positive cost that was left out fits into what is left at the end. */
  lemma {:induction false} PickIsMaximal<T>(cost: Cost<T>, buckets: seq<seq<T>>, budget: int, i: nat, x: T)
    requires AllNonNegative(cost, buckets) && LeftOut(cost, buckets, budget, i, x) && cost(x) > 0
    ensures cost(x) > Pick(cost, buckets, budget).left
    decreases |buckets|
  {
    FrontNonNegative(cost, buckets);
    if i < |buckets| - 1 {
      LeftOutEarlier(cost, buckets, budget, i, x);
      PickIsMaximal(cost, buckets[..|buckets| - 1], budget, i, x);
      LeftFalls(cost, buckets, budget);
    } else {
      LeftOutLast(cost, buckets, budget, x);
    }
  }

  // ---------------------------------------------------------------- when everything fits

  /** If there is anything in bucket `i`, the buckets before it leave something of the budget, and
      together with them it fits. */
  ghost predicate FitsAt<T>(cost: Cost<T>, buckets: seq<seq<T>>, budget: int, i: nat)
    requires i < |buckets|
  {
    buckets[i] != [] ==> TotalOf(cost, buckets[..i]) < budget && TotalOf(cost, buckets[..i + 1]) <= budget
  }

  ghost predicate AllFit<T>(cost: Cost<T>, buckets: seq<seq<T>>, budget: int) {
    forall i :: 0 <= i < |buckets| ==> FitsAt(cost, buckets, budget, i)
  }

  lemma FitsAtFront<T>(cost: Cost<T>, buckets: seq<seq<T>>, budget: int, i: nat)
    requires i < |buckets| - 1
    ensures FitsAt(cost, buckets, budget, i) <==> FitsAt(cost, buckets[..|buckets| - 1], budget, i)
  {
    assert buckets[..|buckets| - 1][..i] == buckets[..i] && buckets[..|buckets| - 1][..i + 1] == buckets[..i + 1];
  }

  /** One more bucket can be taken whole. */
  lemma AllFitStep<T>(cost: Cost<T>, buckets: seq<seq<T>>, budget: int)
    requires buckets != []
    ensures AllFit(cost, buckets, budget)
      <==> AllFit(cost, buckets[..|buckets| - 1], budget) && FitsAt(cost, buckets, budget, |buckets| - 1)
  {
    var front, n := buckets[..|buckets| - 1], |buckets| - 1;
    if AllFit(cost, front, budget) && FitsAt(cost, buckets, budget, n) {
      forall i | 0 <= i < |buckets| ensures FitsAt(cost, buckets, budget, i) {
        if i < n {
          FitsAtFront(cost, buckets, budget, i);
        }
      }
    }
    if AllFit(cost, buckets, budget) {
      forall i | 0 <= i < n ensures FitsAt(cost, front, budget, i) {
        FitsAtFront(cost, buckets, budget, i);
      }
    }
  }

  lemma PickOneAllIff<T>(cost: Cost<T>, p: Picked<T>, bucket: seq<T>)
    requires NonNegative(cost, bucket)
    ensures PickOne(cost, p, bucket).chosen[|p.chosen|] == bucket
      <==> (bucket != [] ==> p.left > 0 && Total(cost, bucket) <= p.left)
  {
    if bucket != [] && p.left > 0 {
      ChooseAllIff(cost, bucket, p.left);
      ChooseFits(cost, bucket, p.left);
      var c := Choose(cost, bucket, p.left);
      assert |multiset(c.selected)| + |multiset(c.excluded)| == |multiset(bucket)|;
      assert c.selected == bucket <==> c.excluded == [];
    }
  }

  lemma FrontAndLast<T>(a: seq<T>, b: seq<T>)
    requires |a| == |b| > 0
    ensures a == b <==> a[..|a| - 1] == b[..|b| - 1] && a[|a| - 1] == b[|b| - 1]
  {
    assert a == a[..|a| - 1] + [a[|a| - 1]] && b == b[..|b| - 1] + [b[|b| - 1]];
  }

  lemma LastAllIff<T>(cost: Cost<T>, buckets: seq<seq<T>>, budget: int)
    requires buckets != [] && NonNegative(cost, buckets[|buckets| - 1])
    requires Pick(cost, buckets[..|buckets| - 1], budget).chosen == buckets[..|buckets| - 1]
    ensures Pick(cost, buckets, budget).chosen == buckets <==> FitsAt(cost, buckets, budget, |buckets| - 1)
  {
    var n := |buckets| - 1;
    var p := Pick(cost, buckets[..n], budget);
    PickFits(cost, buckets[..n], budget);
    PickOneFits(cost, p, buckets[n]);
    PickOneAllIff(cost, p, buckets[n]);
    FrontAndLast(Pick(cost, buckets, budget).chosen, buckets);
    assert buckets[..n + 1] == buckets;
  }

  lemma FrontIsPicked<T>(cost: Cost<T>, buckets: seq<seq<T>>, budget: int)
    requires buckets != [] && Pick(cost, buckets, budget).chosen == buckets
    ensures Pick(cost, buckets[..|buckets| - 1], budget).chosen == buckets[..|buckets| - 1]
  {
    var n := |buckets| - 1;
    PickFits(cost, buckets[..n], budget);
    PickOneFits(cost, Pick(cost, buckets[..n], budget), buckets[n]);
  }

  /** Everything is selected exactly if everything fits. */
  lemma {:induction false} PickAllIff<T>(cost: Cost<T>, buckets: seq<seq<T>>, budget: int)
    requires AllNonNegative(cost, buckets)
    ensures Pick(cost, buckets, budget).chosen == buckets <==> AllFit(cost, buckets, budget)
  {
    if buckets != [] {
      FrontNonNegative(cost, buckets);
      PickAllIff(cost, buckets[..|buckets| - 1], budget);
      AllFitStep(cost, buckets, budget);
      if Pick(cost, buckets, budget).chosen == buckets {
        FrontIsPicked(cost, buckets, budget);
      }
      if Pick(cost, buckets[..|buckets| - 1], budget).chosen == buckets[..|buckets| - 1] {
        LastAllIff(cost, buckets, budget);
      }
    }
  }

  // ---------------------------------------------------------------- the order inside buckets

  /** Two lists of buckets that hold the same items. */
  ghost predicate SameItems<T>(a: seq<seq<T>>, b: seq<seq<T>>) {
    |a| == |b| && forall i :: 0 <= i < |a| ==> multiset(a[i]) == multiset(b[i])
  }

  lemma {:induction false} TotalOfForgetsOrder<T>(cost: Cost<T>, a: seq<seq<T>>, b: seq<seq<T>>)
    requires SameItems(a, b)
    ensures TotalOf(cost, a) == TotalOf(cost, b)
  {
    if a != [] {
      TotalOfForgetsOrder(cost, a[..|a| - 1], b[..|b| - 1]);
      TotalForgetsOrder(cost, a[|a| - 1], b[|b| - 1]);
    }
  }

  /** Whether everything fits does not depend on how the buckets are sorted. */
  lemma AllFitForgetsOrder<T>(cost: Cost<T>, a: seq<seq<T>>, b: seq<seq<T>>, budget: int)
    requires SameItems(a, b) && AllFit(cost, a, budget)
    ensures AllFit(cost, b, budget)
  {
    forall i | 0 <= i < |b| ensures FitsAt(cost, b, budget, i) {
      assert FitsAt(cost, a, budget, i);
      TotalOfForgetsOrder(cost, a[..i], b[..i]);
      TotalOfForgetsOrder(cost, a[..i + 1], b[..i + 1]);
      assert a[i] == [] ==> |multiset(b[i])| == 0;
    }
  }

  lemma {:induction false} FlatCounts<T>(parts: seq<seq<T>>, i: nat, x: T)
    requires i < |parts|
    ensures multiset(parts[i])[x] <= multiset(Flat(parts))[x]
    decreases |parts|
  {
    if i < |parts| - 1 {
      FlatCounts(parts[..|parts| - 1], i, x);
    }
  }

  lemma {:induction false} TotalOfFlat<T>(cost: Cost<T>, parts: seq<seq<T>>)
    ensures Total(cost, Flat(parts)) == TotalOf(cost, parts)
  {
    if parts != [] {
      TotalOfFlat(cost, parts[..|parts| - 1]);
      TotalConcat(cost, Flat(parts[..|parts| - 1]), parts[|parts| - 1]);
    }
  }

  lemma Distribute(f: int, a: int, b: int)
    ensures f * (a + b) == f * a + f * b
  {
  }

  /** A pointwise bound carries over to totals. */
  lemma {:induction false} TotalBound<T>(size: Cost<T>, cost: Cost<T>, items: seq<T>, factor: nat, slack: nat)
    requires forall x :: x in items ==> size(x) <= factor * cost(x) + slack
    ensures Total(size, items) <= factor * Total(cost, items) + slack * |items|
  {
    if items != [] {
      var front, x := items[..|items| - 1], items[|items| - 1];
      assert forall y :: y in front ==> y in items;
      assert x in items;
      TotalBound(size, cost, front, factor, slack);
      Distribute(factor, Total(cost, front), cost(x));
      Distribute(slack, |front|, 1);
    }
  }
}
