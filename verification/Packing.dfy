/** Packing batch items under a count and a token limit, in order. */
module Packing {
  import opened Sums
  import opened Decimal

  const DEFAULT_BATCH_SIZE := 50
  const DEFAULT_TOKEN_BUDGET := 120000

  datatype BatchItem = BatchItem(
    id: string, title: string, skills: seq<string>, description: string, inputSnapshot: string)

  function Utf8Width(c: char): nat {
    if c < '\U{80}' then 1 else if c < '\U{800}' then 2 else if c < '\U{10000}' then 3 else 4
  }

  function Utf8Length(s: string): nat {
    if s == "" then 0 else Utf8Width(s[0]) + Utf8Length(s[1..])
  }

  /** The least count with three bytes and two characters to the token. */
  function EstimateTokens(s: string): (n: nat)
    ensures Utf8Length(s) <= 3 * n && |s| <= 2 * n
    ensures n > 0 ==> 3 * (n - 1) < Utf8Length(s) || 2 * (n - 1) < |s|
  {
    var byBytes, byRunes := (Utf8Length(s) + 2) / 3, (|s| + 1) / 2;
    if byBytes > byRunes then byBytes else byRunes
  }

  function JoinWords(words: seq<string>): string {
    if words == [] then "" else if |words| == 1 then words[0] else words[0] + " " + JoinWords(words[1..])
  }

  function ItemCost(item: BatchItem): (cost: int)
    ensures cost >= 32
  {
    var text := item.title + JoinWords(item.skills) + item.description;
    var sent := if TrimSpace(text) == "" then item.inputSnapshot else text;
    EstimateTokens(sent) + EstimateTokens(item.id) + 32
  }

  datatype Limits = Limits(base: nat, maxCount: int, budget: int)

  /** A batch the rule allows: a lone item, or one within both limits. */
  /** The cost covers every byte that is sent for the item, at three bytes a token, besides the fixed 32: its id and its
      fields, or its snapshot when the fields are blank. */
  lemma CostCovers(item: BatchItem)
    ensures var text := item.title + JoinWords(item.skills) + item.description;
            && (TrimSpace(text) != "" ==> Utf8Length(text) + Utf8Length(item.id) <= 3 * (ItemCost(item) - 32))
            && (TrimSpace(text) == "" ==> Utf8Length(item.inputSnapshot) + Utf8Length(item.id) <= 3 * (ItemCost(item) - 32))
  {
  }

  predicate Fits(batch: seq<BatchItem>, l: Limits) {
    batch != [] && (|batch| == 1 || (|batch| <= l.maxCount && l.base + Sum(batch, ItemCost) <= l.budget))
  }

  function Concat<T>(batches: seq<seq<T>>): seq<T> {
    if batches == [] then [] else batches[0] + Concat(batches[1..])
  }

  lemma {:induction false} ConcatAppend<T>(a: seq<seq<T>>, b: seq<seq<T>>)
    ensures Concat(a + b) == Concat(a) + Concat(b)
  {
    if a == [] {
      assert a + b == b;
    } else {
      assert (a + b)[1..] == a[1..] + b;
      ConcatAppend(a[1..], b);
    }
  }

  /** An order-preserving split of the items that obeys the rule. */
  predicate IsSplit(batches: seq<seq<BatchItem>>, items: seq<BatchItem>, l: Limits) {
    Concat(batches) == items && forall i :: 0 <= i < |batches| ==> Fits(batches[i], l)
  }

  lemma {:induction false} SumPart(s: seq<BatchItem>, lo: nat, hi: nat)
    requires lo <= hi <= |s|
    ensures 0 <= Sum(s[lo..hi], ItemCost) <= Sum(s, ItemCost)
  {
    assert s == s[..lo] + s[lo..hi] + s[hi..];
    SumAppend(s[..lo] + s[lo..hi], s[hi..], ItemCost);
    SumAppend(s[..lo], s[lo..hi], ItemCost);
    SumNonNegative(s[..lo]);
    SumNonNegative(s[lo..hi]);
    SumNonNegative(s[hi..]);
  }

  lemma {:induction false} SumNonNegative(s: seq<BatchItem>)
    ensures Sum(s, ItemCost) >= 0
  {
    if s != [] {
      SumNonNegative(s[1..]);
    }
  }

  /** Any contiguous part of an allowed batch is allowed. */
  lemma FitsPart(batch: seq<BatchItem>, lo: nat, hi: nat, l: Limits)
    requires Fits(batch, l) && lo < hi <= |batch|
    ensures Fits(batch[lo..hi], l)
  {
    SumPart(batch, lo, hi);
  }

  /** How far a batch that starts at the head can grow. */
  function Grow(items: seq<BatchItem>, n: nat, l: Limits): (k: nat)
    requires 1 <= n <= |items|
    ensures n <= k <= |items|
    decreases |items| - n
  {
    if n < |items| && Fits(items[..n + 1], l) then Grow(items, n + 1, l) else n
  }

  function Greedy(items: seq<BatchItem>, l: Limits): seq<seq<BatchItem>> {
    if items == [] then []
    else
      var k := Grow(items, 1, l);
      [items[..k]] + Greedy(items[k..], l)
  }

  lemma {:induction false} GrowFits(items: seq<BatchItem>, n: nat, l: Limits)
    requires 1 <= n <= |items| && Fits(items[..n], l)
    ensures Fits(items[..Grow(items, n, l)], l)
    decreases |items| - n
  {
    if n < |items| && Fits(items[..n + 1], l) {
      GrowFits(items, n + 1, l);
    }
  }

  lemma {:induction false} GrowReaches(items: seq<BatchItem>, n: nat, m: nat, l: Limits)
    requires 1 <= n <= m <= |items| && Fits(items[..m], l)
    ensures Grow(items, n, l) >= m
    decreases m - n
  {
    if n < m {
      FitsPart(items[..m], 0, n + 1, l);
      assert items[..m][0..n + 1] == items[..n + 1];
      GrowReaches(items, n + 1, m, l);
    }
  }

  lemma {:induction false} GreedyIsSplit(items: seq<BatchItem>, l: Limits)
    ensures IsSplit(Greedy(items, l), items, l)
    decreases |items|
  {
    if items != [] {
      var k := Grow(items, 1, l);
      GrowFits(items, 1, l);
      GreedyIsSplit(items[k..], l);
      assert items == items[..k] + items[k..];
    }
  }

  lemma SplitTail(split: seq<seq<BatchItem>>, items: seq<BatchItem>, l: Limits)
    requires IsSplit(split, items, l) && items != []
    ensures split != [] && |split[0]| <= |items|
    ensures split[0] == items[..|split[0]|] && Fits(split[0], l)
    ensures IsSplit(split[1..], items[|split[0]|..], l)
  {
    hide Fits, Sum;
    assert split != [];
    assert items == split[0] + Concat(split[1..]);
  }

  /** Greedy stays ahead: from any later point it needs no more batches than a split of the whole. */
  lemma {:induction false} GreedyStaysAhead(items: seq<BatchItem>, d: nat, split: seq<seq<BatchItem>>, l: Limits)
    requires d <= |items| && IsSplit(split, items, l)
    ensures |Greedy(items[d..], l)| <= |split|
    decreases |split|
  {
    hide Fits, Sum, IsSplit, Concat, Grow;
    var rest := items[d..];
    if rest != [] {
      SplitTail(split, items, l);
      var e := |split[0]|;
      var after := items[e..];
      if e <= d {
        assert rest == after[d - e..];
        GreedyStaysAhead(after, d - e, split[1..], l);
      } else {
        var k := AheadStep(items, d, e, l);
        assert rest[k..] == after[d + k - e..];
        GreedyStaysAhead(after, d + k - e, split[1..], l);
      }
    }
  }

  /** The greedy batch from `d` ends no earlier than an allowed batch that covers `d`. */
  lemma AheadStep(items: seq<BatchItem>, d: nat, e: nat, l: Limits) returns (k: nat)
    requires d < e <= |items| && Fits(items[..e], l)
    ensures k == Grow(items[d..], 1, l) && e - d <= k <= |items| - d
  {
    hide Fits, Sum;
    FitsPart(items[..e], d, e, l);
    assert items[..e][d..e] == items[d..][..e - d];
    GrowReaches(items[d..], 1, e - d, l);
    k := Grow(items[d..], 1, l);
  }

  lemma GreedyMinimal(items: seq<BatchItem>, l: Limits)
    ensures forall split :: IsSplit(split, items, l) ==> |Greedy(items, l)| <= |split|
  {
    forall split | IsSplit(split, items, l) ensures |Greedy(items, l)| <= |split| {
      assert items[0..] == items;
      GreedyStaysAhead(items, 0, split, l);
    }
  }

  function EffectiveLimits(shared: string, maxCount: int, tokenBudget: int): Limits {
    Limits(EstimateTokens(shared) + 400,
           if maxCount < 1 then DEFAULT_BATCH_SIZE else maxCount,
           if tokenBudget < 1 then DEFAULT_TOKEN_BUDGET else tokenBudget)
  }

  /** The overhead of a request and the limits used when none are given. */
  lemma LimitsMeaning(shared: string, maxCount: int, tokenBudget: int)
    ensures var l := EffectiveLimits(shared, maxCount, tokenBudget);
            && 3 * (l.base - 400) >= Utf8Length(shared)
            && l.maxCount == (if maxCount >= 1 then maxCount else 50)
            && l.budget == (if tokenBudget >= 1 then tokenBudget else 120000)
  {
  }

  /** Closing the current batch when one more item would not fit closes the greedy batch. */
  lemma ClosesGreedy(rest: seq<BatchItem>, n: nat, l: Limits)
    requires 1 <= n < |rest|
    requires Fits(rest[..n], l) && !Fits(rest[..n + 1], l)
    ensures Greedy(rest, l) == [rest[..n]] + Greedy(rest[n..], l)
  {
    hide Fits, Sum;
    var k := Grow(rest, 1, l);
    GrowReaches(rest, 1, n, l);
    FitsHead(rest, l);
    GrowFits(rest, 1, l);
    if k > n {
      assert rest[..k][0..n + 1] == rest[..n + 1];
      FitsPart(rest[..k], 0, n + 1, l);
    }
  }

  lemma FitsHead(rest: seq<BatchItem>, l: Limits)
    requires rest != []
    ensures Fits(rest[..1], l)
  {
  }

  /** The last batch runs to the end of the items. */
  lemma LastGreedy(rest: seq<BatchItem>, l: Limits)
    requires rest != [] && Fits(rest, l)
    ensures Greedy(rest, l) == [rest]
  {
    assert rest[..|rest|] == rest;
    GrowReaches(rest, 1, |rest|, l);
  }

  /** The code's guard is exactly "one more item would not fit". */
  lemma GuardIsFits(current: seq<BatchItem>, item: BatchItem, l: Limits)
    requires current != []
    ensures Fits(current + [item], l) <==>
            !(|current| >= l.maxCount || l.base + Sum(current, ItemCost) + ItemCost(item) > l.budget)
    ensures Sum(current + [item], ItemCost) == Sum(current, ItemCost) + ItemCost(item)
  {
    SumAppend(current, [item], ItemCost);
  }

  /** PackBatchItems: a split obeying the rule, with as few batches as any such split. */
  method PackBatchItems(shared: string, items: seq<BatchItem>, maxCount: int, tokenBudget: int)
    returns (result: seq<seq<BatchItem>>)
    ensures IsSplit(result, items, EffectiveLimits(shared, maxCount, tokenBudget))
    ensures forall split :: IsSplit(split, items, EffectiveLimits(shared, maxCount, tokenBudget)) ==>
              |result| <= |split|
  {
    hide Fits, ItemCost, EffectiveLimits, Grow, Greedy, Concat;
    var l := EffectiveLimits(shared, maxCount, tokenBudget);
    var current: seq<BatchItem> := [];
    var used := l.base;
    result := [];
    ghost var start := 0;
    assert items[0..] == items;
    for i := 0 to |items|
      invariant 0 <= start <= i && current == items[start..i]
      invariant used == l.base + Sum(current, ItemCost)
      invariant i > 0 ==> current != [] && Fits(current, l)
      invariant result + Greedy(items[start..], l) == Greedy(items, l)
    {
      var cost := ItemCost(items[i]);
      if current == [] {
        LoneFits(items[i], l);
      } else {
        GuardIsFits(current, items[i], l);
      }
      ghost var rest := items[start..];
      if |current| > 0 && (|current| >= l.maxCount || used + cost > l.budget) {
        assert rest[..|current|] == current && rest[..|current| + 1] == current + [items[i]];
        assert rest[|current|..] == items[i..];
        ClosesGreedy(rest, |current|, l);
        LoneFits(items[i], l);
        result := result + [current];
        current, used, start := [], l.base, i;
      }
      assert current == [] ==> current + [items[i]] == [items[i]];
      current := current + [items[i]];
      used := used + cost;
    }
    if |current| > 0 {
      assert items[start..] == current;
      LastGreedy(current, l);
      result := result + [current];
    } else {
      assert items == [];
    }
    NoItems(l);
    assert result == Greedy(items, l);
    GreedyIsSplit(items, l);
    GreedyMinimal(items, l);
  }

  lemma LoneFits(item: BatchItem, l: Limits)
    ensures Fits([item], l) && Sum([item], ItemCost) == ItemCost(item)
  {
  }

  lemma NoItems(l: Limits)
    ensures Greedy([], l) == []
  {
  }
}
