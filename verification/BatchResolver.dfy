/** The AI batch resolver: packed batches in adaptive waves, retries, and divide-and-conquer over what a
    batch left unresolved. The provider may fail, answer any subset, or answer nonsense, call by call. */
module BatchResolver {
  import opened Sorting
  import opened Sums
  import opened Assistant
  import opened Packing
  import opened BatchTokens

  datatype Historical = Historical(rawId: string, output: MatchOutput, valid: bool)

  datatype ReviewItem = ReviewItem(rawId: string, reason: string)

  /** One decoded HTTP answer to a batch prompt. */
  datatype BatchAnswer =
    | BatchFailed(category: Category)
    | IdList(matches: seq<string>, reviews: seq<ReviewItem>)
    | Decisions(decisions: seq<Historical>)

  datatype SingleAnswer = SingleFailed(category: Category) | Answered(output: MatchOutput)

  datatype Stats = Stats(httpAttempts: nat, retries: nat, batches: nat, category: Option<Category>)

  datatype BatchResult = BatchResult(outputs: map<string, MatchOutput>, errors: map<string, Category>, stats: Stats)

  const NoStats := Stats(0, 0, 0, None)
  const EmptyResult := BatchResult(map[], map[], NoStats)

  function Merge(a: Stats, b: Stats): Stats {
    Stats(a.httpAttempts + b.httpAttempts, a.retries + b.retries, a.batches + b.batches,
          if b.category.Some? then b.category else a.category)
  }

  function IdsOf(items: seq<BatchItem>): seq<string> {
    seq(|items|, i requires 0 <= i < |items| => items[i].id)
  }

  function IdSet(items: seq<BatchItem>): set<string> {
    set item | item in items :: item.id
  }

  function Unresolved(items: seq<BatchItem>, outputs: map<string, MatchOutput>): seq<BatchItem> {
    if items == [] then []
    else (if items[0].id in outputs then [] else [items[0]]) + Unresolved(items[1..], outputs)
  }

  lemma {:induction false} UnresolvedMembers(items: seq<BatchItem>, outputs: map<string, MatchOutput>)
    ensures |Unresolved(items, outputs)| <= |items|
    ensures forall x :: x in Unresolved(items, outputs) <==> x in items && x.id !in outputs
    ensures DistinctIds(items) ==> DistinctIds(Unresolved(items, outputs))
  {
    if items != [] {
      UnresolvedMembers(items[1..], outputs);
      assert items == [items[0]] + items[1..];
    }
  }

  lemma UnresolvedIds(items: seq<BatchItem>, outputs: map<string, MatchOutput>)
    ensures IdSet(Unresolved(items, outputs)) == IdSet(items) - outputs.Keys
    ensures |Unresolved(items, outputs)| <= |items|
    ensures DistinctIds(items) ==> DistinctIds(Unresolved(items, outputs))
  {
    hide DistinctIds, Unresolved;
    UnresolvedMembers(items, outputs);
  }

  predicate DistinctIds(items: seq<BatchItem>) {
    forall i, j :: 0 <= i < j < |items| ==> items[i].id != items[j].id
  }

  lemma SplitIds(items: seq<BatchItem>, mid: nat)
    requires mid <= |items|
    ensures IdSet(items) == IdSet(items[..mid]) + IdSet(items[mid..])
    ensures DistinctIds(items) ==>
              && DistinctIds(items[..mid]) && DistinctIds(items[mid..])
              && IdSet(items[..mid]) !! IdSet(items[mid..])
  {
    assert items == items[..mid] + items[mid..];
    if DistinctIds(items) {
      forall a, b | a in items[..mid] && b in items[mid..] ensures a.id != b.id {
        var i :| 0 <= i < mid && items[i] == a;
        var j :| 0 <= j < |items| - mid && items[mid..][j] == b;
        assert items[mid + j] == b;
      }
    }
  }

  /** The most provider batches `n` items can cost. */
  function MaxCalls(n: nat): nat {
    if n == 0 then 0 else 2 * n - 1
  }

  function Keys(r: BatchResult): set<string> { r.outputs.Keys + r.errors.Keys }

  ghost predicate SameOutside(before: BatchResult, after: BatchResult, ids: set<string>) {
    forall k :: k !in ids ==>
      && (k in after.outputs <==> k in before.outputs) && (k in after.errors <==> k in before.errors)
      && (k in before.outputs ==> after.outputs[k] == before.outputs[k])
      && (k in before.errors ==> after.errors[k] == before.errors[k])
  }

  /** What resolving `items` on top of `before` must do, and all it may do. */
  ghost predicate Resolved(before: BatchResult, after: BatchResult, items: seq<BatchItem>) {
    Keys(after) == Keys(before) + IdSet(items) && SameOutside(before, after, IdSet(items))
  }

  predicate Exclusive(r: BatchResult) { r.outputs.Keys !! r.errors.Keys }

  predicate Untouched(r: BatchResult, items: seq<BatchItem>) {
    Keys(r) !! IdSet(items)
  }

  /** What distinct item ids buy: no id ends up both answered and failed. */
  ghost predicate StaysExclusive(before: BatchResult, after: BatchResult, items: seq<BatchItem>) {
    DistinctIds(items) && Exclusive(before) && Untouched(before, items) ==> Exclusive(after)
  }

  lemma NothingResolved(r: BatchResult)
    ensures Resolved(r, r, []) && StaysExclusive(r, r, [])
  {
  }

  lemma OneResolved(before: BatchResult, after: BatchResult, item: BatchItem, output: MatchOutput, category: Category)
    requires
      || (after.outputs == before.outputs[item.id := output] && after.errors == before.errors)
      || (after.outputs == before.outputs && after.errors == before.errors[item.id := category])
    ensures Resolved(before, after, [item]) && StaysExclusive(before, after, [item])
  {
    assert IdSet([item]) == {item.id};
  }

  function WithOutputs(r: BatchResult, outputs: map<string, MatchOutput>, stats: Stats): BatchResult {
    BatchResult(r.outputs + outputs, r.errors, stats)
  }

  lemma BatchResolved(before: BatchResult, outputs: map<string, MatchOutput>, stats: Stats, items: seq<BatchItem>)
    requires outputs.Keys == IdSet(items)
    ensures Resolved(before, WithOutputs(before, outputs, stats), items)
    ensures StaysExclusive(before, WithOutputs(before, outputs, stats), items)
  {
  }

  lemma IdPieces(kept: set<string>, answered: set<string>, left: set<string>, right: set<string>, all: set<string>)
    requires answered <= all && left + right == all - answered
    ensures kept + answered + left + right == kept + all
    ensures left <= all && right <= all && left !! answered && right !! answered
  {
    assert left <= left + right && right <= left + right;
    assert all == answered + (all - answered);
  }

  lemma SameOutsideChain(a: BatchResult, b: BatchResult, c: BatchResult, x: set<string>, y: set<string>, all: set<string>)
    requires SameOutside(a, b, x) && SameOutside(b, c, y) && x <= all && y <= all
    ensures SameOutside(a, c, all)
  {
  }

  lemma WithOutputsFacts(r: BatchResult, outputs: map<string, MatchOutput>, stats: Stats)
    ensures Keys(WithOutputs(r, outputs, stats)) == Keys(r) + outputs.Keys
    ensures SameOutside(r, WithOutputs(r, outputs, stats), outputs.Keys)
    ensures Exclusive(r) && Keys(r) !! outputs.Keys ==> Exclusive(WithOutputs(r, outputs, stats))
  {
  }

  /** A batch answered some items; the two halves of the rest were resolved after it. */
  lemma HalvesResolved(before: BatchResult, outputs: map<string, MatchOutput>, stats: Stats,
                       mid: BatchResult, after: BatchResult,
                       items: seq<BatchItem>, left: seq<BatchItem>, right: seq<BatchItem>)
    requires outputs.Keys <= IdSet(items)
    requires IdSet(left) + IdSet(right) == IdSet(items) - outputs.Keys
    requires DistinctIds(items) ==> DistinctIds(left) && DistinctIds(right) && IdSet(left) !! IdSet(right)
    requires Resolved(WithOutputs(before, outputs, stats), mid, left) && Resolved(mid, after, right)
    requires StaysExclusive(WithOutputs(before, outputs, stats), mid, left) && StaysExclusive(mid, after, right)
    ensures Resolved(before, after, items) && StaysExclusive(before, after, items)
  {
    hide DistinctIds, IdSet, SameOutside, Keys, Exclusive, WithOutputs;
    var first := WithOutputs(before, outputs, stats);
    WithOutputsFacts(before, outputs, stats);
    IdPieces(Keys(before), outputs.Keys, IdSet(left), IdSet(right), IdSet(items));
    SameOutsideChain(before, first, mid, outputs.Keys, IdSet(left), IdSet(items));
    SameOutsideChain(before, mid, after, IdSet(items), IdSet(right), IdSet(items));
    if DistinctIds(items) && Exclusive(before) && Untouched(before, items) {
      assert Untouched(first, left);
      assert Untouched(mid, right);
    }
  }

  /** The calls made since `before`, within `calls`, each of at most `attempts` requests. */
  predicate WithinCalls(before: Stats, after: Stats, calls: nat, attempts: nat) {
    && before.batches <= after.batches <= before.batches + calls
    && before.httpAttempts <= after.httpAttempts
    && after.httpAttempts - before.httpAttempts <= attempts * (after.batches - before.batches)
  }

  lemma CallsChain(a: Stats, b: Stats, c: Stats, m: nat, n: nat, attempts: nat)
    requires WithinCalls(a, b, m, attempts) && WithinCalls(b, c, n, attempts)
    ensures WithinCalls(a, c, m + n, attempts)
  {
    var x, y := b.batches - a.batches, c.batches - b.batches;
    assert attempts * (x + y) == attempts * x + attempts * y;
  }

  /** How many calls deep halving goes for `n` items. */
  function Levels(n: nat): nat {
    if n <= 1 then 1 else 1 + Levels((n + 1) / 2)
  }

  lemma {:induction false} LevelsMonotone(m: nat, n: nat)
    requires m <= n
    ensures Levels(m) <= Levels(n)
  {
    if m > 1 {
      LevelsMonotone((m + 1) / 2, (n + 1) / 2);
    }
  }

  /** Up to 2^k items need at most k + 1 levels. */
  lemma {:induction false} LevelsLogarithmic(n: nat, k: nat)
    requires n <= Pow2(k)
    ensures Levels(n) <= k + 1
    decreases k
  {
    if n > 1 {
      assert k > 0;
      LevelsLogarithmic((n + 1) / 2, k - 1);
    }
  }

  function Retryable(category: Category, attempt: nat): bool {
    match category
    case RateLimit => true
    case Server => true
    case Network => true
    case Timeout => true
    case InvalidResponse => attempt == 1
    case _ => false
  }

  /* ---- the verdicts of one id-list answer ---- */

  predicate Named(id: string, raws: seq<string>, tokens: map<string, string>) {
    exists i :: 0 <= i < |raws| && Resolve(raws[i], tokens) == Some(id)
  }

  /** The reason of the last review of the item; later entries overwrite. */
  function LastReason(id: string, reviews: seq<ReviewItem>, tokens: map<string, string>): Option<string> {
    if reviews == [] then None
    else
      var last := reviews[|reviews| - 1];
      if Resolve(last.rawId, tokens) == Some(id) then Some(last.reason)
      else LastReason(id, reviews[..|reviews| - 1], tokens)
  }

  /** What an id list says about an item: a match beats a review, a review beats silence. */
  predicate Listed(id: string, output: MatchOutput, matches: seq<string>, reviews: seq<ReviewItem>, tokens: map<string, string>) {
    if Named(id, matches, tokens) then output == IdListMatch
    else output == ByReview(id, reviews, tokens)
  }

  function ByReview(id: string, reviews: seq<ReviewItem>, tokens: map<string, string>): MatchOutput {
    match LastReason(id, reviews, tokens)
    case Some(reason) => IdListReview(reason)
    case None => IdListReject
  }

  /** applyIDListDecisions: every item gets a verdict; a match beats a review, a review beats silence. */
  method ApplyIdList(matches: seq<string>, reviews: seq<ReviewItem>, items: seq<BatchItem>, tokens: map<string, string>)
    returns (outputs: map<string, MatchOutput>)
    requires forall t :: t in tokens ==> tokens[t] in IdSet(items)
    ensures outputs.Keys == IdSet(items)
    ensures forall id :: id in outputs ==> Listed(id, outputs[id], matches, reviews, tokens)
  {
    hide Resolve, IdSet, ByReview, Named;
    outputs := RejectAll(items);
    outputs := ApplyReviews(outputs, reviews, items, tokens);
    NamedNone(tokens);
    for i := 0 to |matches|
      invariant outputs.Keys == IdSet(items)
      invariant forall id :: id in outputs ==>
                  outputs[id] == if Named(id, matches[..i], tokens) then IdListMatch else ByReview(id, reviews, tokens)
    {
      NamedMore(matches, i, tokens);
      var named := Resolve(matches[i], tokens);
      if named.Some? {
        ResolvesToItem(matches[i], tokens, items);
        outputs := outputs[named.value := IdListMatch];
      }
    }
    assert matches[..|matches|] == matches;
  }

  lemma NamedNone(tokens: map<string, string>)
    ensures forall id :: !Named(id, [], tokens)
  {
  }

  /** The review entries over the default rejects. */
  method ApplyReviews(rejects: map<string, MatchOutput>, reviews: seq<ReviewItem>, items: seq<BatchItem>, tokens: map<string, string>)
    returns (outputs: map<string, MatchOutput>)
    requires forall t :: t in tokens ==> tokens[t] in IdSet(items)
    requires rejects.Keys == IdSet(items) && forall id :: id in rejects ==> rejects[id] == IdListReject
    ensures outputs.Keys == IdSet(items)
    ensures forall id :: id in outputs ==> outputs[id] == ByReview(id, reviews, tokens)
  {
    hide Resolve, IdSet;
    outputs := rejects;
    for i := 0 to |reviews|
      invariant outputs.Keys == IdSet(items)
      invariant forall id :: id in outputs ==> outputs[id] == ByReview(id, reviews[..i], tokens)
    {
      assert reviews[..i + 1][..i] == reviews[..i] && reviews[..i + 1][i] == reviews[i];
      var named := Resolve(reviews[i].rawId, tokens);
      if named.Some? {
        ResolvesToItem(reviews[i].rawId, tokens, items);
        outputs := outputs[named.value := IdListReview(reviews[i].reason)];
      }
    }
    assert reviews[..|reviews|] == reviews;
  }

  method RejectAll(items: seq<BatchItem>) returns (outputs: map<string, MatchOutput>)
    ensures outputs.Keys == IdSet(items) && forall id :: id in outputs ==> outputs[id] == IdListReject
  {
    outputs := map[];
    for i := 0 to |items|
      invariant outputs.Keys == IdSet(items[..i])
      invariant forall id :: id in outputs ==> outputs[id] == IdListReject
    {
      assert items[..i + 1] == items[..i] + [items[i]];
      outputs := outputs[items[i].id := IdListReject];
    }
    assert items[..|items|] == items;
  }

  lemma NamedMore(raws: seq<string>, i: nat, tokens: map<string, string>)
    requires i < |raws|
    ensures forall id :: Named(id, raws[..i + 1], tokens) <==>
                         Named(id, raws[..i], tokens) || Resolve(raws[i], tokens) == Some(id)
  {
    forall id ensures Named(id, raws[..i + 1], tokens) <==>
                      Named(id, raws[..i], tokens) || Resolve(raws[i], tokens) == Some(id) {
      assert raws[..i + 1][i] == raws[i];
      if Named(id, raws[..i], tokens) {
        var k :| 0 <= k < i && Resolve(raws[..i][k], tokens) == Some(id);
        assert raws[..i + 1][k] == raws[..i][k];
      }
      if Named(id, raws[..i + 1], tokens) {
        var k :| 0 <= k < i + 1 && Resolve(raws[..i + 1][k], tokens) == Some(id);
        assert k < i ==> raws[..i][k] == raws[..i + 1][k];
      }
    }
  }

  /** The items the first `n` decisions are about. */
  function NamedBy(decisions: seq<Historical>, n: nat, tokens: map<string, string>): set<string>
    requires n <= |decisions|
  {
    if n == 0 then {}
    else
      NamedBy(decisions, n - 1, tokens)
      + match Resolve(decisions[n - 1].rawId, tokens) case Some(id) => {id} case None => {}
  }

  /** Decision `i` is the first one about its item. */
  predicate FirstFor(decisions: seq<Historical>, i: nat, tokens: map<string, string>)
    requires i < |decisions|
  {
    var named := Resolve(decisions[i].rawId, tokens);
    named.Some? && named.value !in NamedBy(decisions, i, tokens)
  }

  /** The item's first decision says so. */
  ghost predicate Decided(id: string, output: MatchOutput, decisions: seq<Historical>, tokens: map<string, string>) {
    exists i :: 0 <= i < |decisions| && FirstFor(decisions, i, tokens) && decisions[i].valid
                && decisions[i].output == output && Resolve(decisions[i].rawId, tokens) == Some(id)
  }

  /** What the first `n` decisions gave. */
  ghost predicate Applied(outputs: map<string, MatchOutput>, decisions: seq<Historical>, n: nat, tokens: map<string, string>)
    requires n <= |decisions|
  {
    && outputs.Keys == NamedBy(decisions, n, tokens)
    && (forall id :: id in outputs ==> Decided(id, outputs[id], decisions, tokens))
    && (forall j :: 0 <= j < n && FirstFor(decisions, j, tokens) ==> decisions[j].valid)
  }

  lemma AppliedSkip(outputs: map<string, MatchOutput>, decisions: seq<Historical>, n: nat, tokens: map<string, string>)
    requires n < |decisions| && Applied(outputs, decisions, n, tokens)
    requires !FirstFor(decisions, n, tokens)
    ensures Applied(outputs, decisions, n + 1, tokens)
  {
    hide Resolve, Decided;
  }

  lemma AppliedTake(outputs: map<string, MatchOutput>, decisions: seq<Historical>, n: nat, tokens: map<string, string>)
    requires n < |decisions| && Applied(outputs, decisions, n, tokens)
    requires FirstFor(decisions, n, tokens) && decisions[n].valid
    ensures var id := Resolve(decisions[n].rawId, tokens).value;
            Applied(outputs[id := decisions[n].output], decisions, n + 1, tokens)
  {
    hide Resolve;
    var id := Resolve(decisions[n].rawId, tokens).value;
    assert Decided(id, decisions[n].output, decisions, tokens);
    hide Decided;
  }

  lemma KeysApplied(outputs: map<string, MatchOutput>, decisions: seq<Historical>, n: nat, tokens: map<string, string>)
    requires n < |decisions| && Applied(outputs, decisions, n, tokens)
    ensures FirstFor(decisions, n, tokens) <==>
            var named := Resolve(decisions[n].rawId, tokens); named.Some? && named.value !in outputs
  {
  }

  /** applyHistoricalDecisions: the first decision per item wins; one that is first and invalid spoils the answer. */
  method ApplyDecisions(decisions: seq<Historical>, items: seq<BatchItem>, tokens: map<string, string>)
    returns (outputs: map<string, MatchOutput>, ok: bool)
    requires forall t :: t in tokens ==> tokens[t] in IdSet(items)
    ensures ok <==> forall i :: 0 <= i < |decisions| && FirstFor(decisions, i, tokens) ==> decisions[i].valid
    ensures ok ==> outputs.Keys <= IdSet(items) && Applied(outputs, decisions, |decisions|, tokens)
  {
    hide Resolve, IdSet, FirstFor, Decided;
    outputs := map[];
    for i := 0 to |decisions|
      invariant outputs.Keys <= IdSet(items) && Applied(outputs, decisions, i, tokens)
    {
      hide Applied;
      var d := decisions[i];
      var named := Resolve(d.rawId, tokens);
      assert FirstFor(decisions, i, tokens) <==> named.Some? && named.value !in outputs by {
        KeysApplied(outputs, decisions, i, tokens);
      }
      if named.None? || named.value in outputs {
        AppliedSkip(outputs, decisions, i, tokens);
        continue;
      }
      if !d.valid {
        return outputs, false;
      }
      AppliedTake(outputs, decisions, i, tokens);
      ResolvesToItem(d.rawId, tokens, items);
      outputs := outputs[named.value := d.output];
    }
    ok := true;
  }

  lemma ResolvesToItem(raw: string, tokens: map<string, string>, items: seq<BatchItem>)
    requires forall t :: t in tokens ==> tokens[t] in IdSet(items)
    ensures Resolve(raw, tokens).Some? ==> Resolve(raw, tokens).value in IdSet(items)
  {
    hide IdSet;
  }

  /* ---- adaptive concurrency ---- */

  datatype Controller = Controller(concurrency: nat, calmWaves: nat)

  /** After a wave: halve on trouble, add one after three calm waves in a row. */
  function Adapt(c: Controller, adverse: bool, limit: nat): Controller {
    if adverse then Controller(if c.concurrency / 2 < 1 then 1 else c.concurrency / 2, 0)
    else if c.calmWaves + 1 >= 3 && c.concurrency < limit then Controller(c.concurrency + 1, 0)
    else Controller(c.concurrency, c.calmWaves + 1)
  }

  function AdaptAll(c: Controller, waves: seq<bool>, limit: nat): Controller
    decreases |waves|
  {
    if waves == [] then c else AdaptAll(Adapt(c, waves[0], limit), waves[1..], limit)
  }

  lemma {:induction false} AdaptLast(c: Controller, waves: seq<bool>, last: bool, limit: nat)
    ensures AdaptAll(c, waves + [last], limit) == Adapt(AdaptAll(c, waves, limit), last, limit)
    decreases |waves|
  {
    if waves == [] {
      assert [] + [last] == [last] && [last][1..] == [];
    } else {
      AdaptLast(Adapt(c, waves[0], limit), waves[1..], last, limit);
      assert (waves + [last])[1..] == waves[1..] + [last];
    }
  }

  /** What one wave does: an adverse one halves the concurrency, never below one; the third calm one in a row raises it by
      one, up to the limit; any other leaves it. */
  lemma WaveEffect(c: Controller, adverse: bool, limit: nat)
    requires 1 <= c.concurrency <= limit
    ensures var after := Adapt(c, adverse, limit);
            if adverse then
              after.calmWaves == 0 && (c.concurrency == 1 ==> after.concurrency == 1)
              && (c.concurrency > 1 ==> 2 * after.concurrency <= c.concurrency <= 2 * after.concurrency + 1)
            else if c.calmWaves >= 2 && c.concurrency < limit then after == Controller(c.concurrency + 1, 0)
            else after == Controller(c.concurrency, c.calmWaves + 1)
  {
  }

  /** Over any history of waves the concurrency stays within [1, limit]. */
  lemma {:induction false} ConcurrencyBounded(c: Controller, waves: seq<bool>, limit: nat)
    requires 1 <= c.concurrency <= limit
    ensures 1 <= AdaptAll(c, waves, limit).concurrency <= limit
    decreases |waves|
  {
    if waves != [] {
      ConcurrencyBounded(Adapt(c, waves[0], limit), waves[1..], limit);
    }
  }

  /** From the floor, three calm waves a step bring it back to the limit. */
  lemma {:induction false} ConcurrencyRecovers(c: nat, limit: nat)
    requires 1 <= c <= limit
    ensures AdaptAll(Controller(c, 0), seq(3 * (limit - c), _ => false), limit).concurrency == limit
    decreases limit - c
  {
    if c < limit {
      var waves := seq(3 * (limit - c), _ => false);
      var rest := seq(3 * (limit - (c + 1)), _ => false);
      assert waves[1..][1..][1..] == rest;
      var c1 := Adapt(Controller(c, 0), waves[0], limit);
      var c2 := Adapt(c1, waves[1..][0], limit);
      var c3 := Adapt(c2, waves[1..][1..][0], limit);
      assert c3 == Controller(c + 1, 0);
      assert AdaptAll(Controller(c, 0), waves, limit) == AdaptAll(c1, waves[1..], limit);
      assert AdaptAll(c1, waves[1..], limit) == AdaptAll(c2, waves[1..][1..], limit);
      assert AdaptAll(c2, waves[1..][1..], limit) == AdaptAll(c3, rest, limit);
      ConcurrencyRecovers(c + 1, limit);
    }
  }

  predicate Adverse(category: Option<Category>) {
    category.Some? && (category.value.RateLimit? || category.value.Timeout?
                       || category.value.ContextLimit? || category.value.InvalidResponse?)
  }

  /* ---- where results come from ---- */

  /** What this batch answer says about the id. */
  ghost predicate Judged(id: string, output: MatchOutput, answer: BatchAnswer, batch: seq<BatchItem>) {
    var tokens := TokensOf(IdsOf(batch));
    match answer
    case BatchFailed(_) => false
    case IdList(matches, reviews) => id in IdSet(batch) && Listed(id, output, matches, reviews, tokens)
    case Decisions(decisions) => Decided(id, output, decisions, tokens)
  }

  /** What the provider answers at each tick, and how often a call may be repeated. */
  datatype Provider = Provider(script: nat -> BatchAnswer, singles: nat -> SingleAnswer, attempts: nat)

  /** The failures after which the same request is made again. */
  predicate WorthRetry(category: Category, attempt: nat) {
    category in {RateLimit, Server, Network, Timeout} || (category == InvalidResponse && attempt == 1)
  }

  /** One HTTP request as it was made. */
  datatype Request =
    | BatchAsked(tick: nat, batch: seq<BatchItem>)
    | SingleAsked(tick: nat, item: BatchItem)

  /** How a batch answer fails: as the provider says, or as invalid when some item's first decision is. */
  ghost function BatchFailure(answer: BatchAnswer, items: seq<BatchItem>): Option<Category> {
    match answer
    case BatchFailed(category) => Some(category)
    case IdList(_, _) => None
    case Decisions(decisions) =>
      if exists i :: 0 <= i < |decisions| && FirstFor(decisions, i, TokensOf(IdsOf(items))) && !decisions[i].valid
      then Some(InvalidResponse) else None
  }

  /** This request was about items of `all`, one of them the id, and its answer said so. */
  ghost predicate SaidBy(r: Request, id: string, output: MatchOutput, all: seq<BatchItem>, pr: Provider) {
    match r
    case BatchAsked(tick, batch) =>
      multiset(batch) <= multiset(all) && id in IdSet(batch) && Judged(id, output, pr.script(tick), batch)
    case SingleAsked(tick, item) => item in all && item.id == id && pr.singles(tick) == Answered(output)
  }

  /** The `n` requests that end at `k` were all for this one item, and all before the last failed in a way worth
      a retry. */
  ghost predicate Series(log: seq<Request>, k: nat, n: nat, item: BatchItem, pr: Provider) {
    && 1 <= n <= k + 1 && k < |log|
    && (forall j :: k + 1 - n <= j <= k ==> log[j].SingleAsked? && log[j].item == item)
    && (forall j :: k + 1 - n <= j < k ==>
          pr.singles(log[j].tick).SingleFailed? && WorthRetry(pr.singles(log[j].tick).category, j - (k - n)))
  }

  /** The requests for the item alone ended here: the last failed so, and either the attempts were used up or the
      failure was not worth another. */
  ghost predicate GaveUp(log: seq<Request>, k: nat, n: nat, item: BatchItem, category: Category, pr: Provider) {
    && Series(log, k, n, item, pr) && pr.singles(log[k].tick) == SingleFailed(category)
    && n <= pr.attempts && (n == pr.attempts || !WorthRetry(category, n))
  }

  ghost predicate FailedBy(log: seq<Request>, k: nat, id: string, category: Category, all: seq<BatchItem>, pr: Provider) {
    exists n, item :: GaveUp(log, k, n, item, category, pr) && item in all && item.id == id
  }

  ghost predicate Sourced(id: string, output: MatchOutput, log: seq<Request>, all: seq<BatchItem>, pr: Provider) {
    exists k :: 0 <= k < |log| && SaidBy(log[k], id, output, all, pr)
  }

  /** An item is reported failed only for what its own requests ended with, after all retries worth making. */
  ghost predicate FailedAlone(id: string, category: Category, log: seq<Request>, all: seq<BatchItem>, pr: Provider) {
    exists k :: 0 <= k < |log| && FailedBy(log, k, id, category, all, pr)
  }

  /** Everything in the result was answered in a logged request about that very item. */
  ghost predicate AllSourced(r: BatchResult, log: seq<Request>, all: seq<BatchItem>, pr: Provider) {
    && (forall id :: id in r.outputs ==> Sourced(id, r.outputs[id], log, all, pr))
    && (forall id :: id in r.errors ==> FailedAlone(id, r.errors[id], log, all, pr))
  }

  lemma SourcedWith(r: BatchResult, outputs: map<string, MatchOutput>, stats: Stats,
                    log: seq<Request>, all: seq<BatchItem>, pr: Provider)
    requires AllSourced(r, log, all, pr)
    requires forall id :: id in outputs ==> Sourced(id, outputs[id], log, all, pr)
    ensures AllSourced(WithOutputs(r, outputs, stats), log, all, pr)
  {
    hide Sourced, FailedAlone;
  }

  lemma SourcedOne(r: BatchResult, after: BatchResult, id: string, output: MatchOutput, category: Category,
                   log: seq<Request>, all: seq<BatchItem>, pr: Provider)
    requires AllSourced(r, log, all, pr)
    requires
      || (after.outputs == r.outputs[id := output] && after.errors == r.errors
          && Sourced(id, output, log, all, pr))
      || (after.outputs == r.outputs && after.errors == r.errors[id := category]
          && FailedAlone(id, category, log, all, pr))
    ensures AllSourced(after, log, all, pr)
  {
    hide Sourced, FailedAlone;
  }

  lemma SourcedMerged(a: BatchResult, b: BatchResult, log: seq<Request>, all: seq<BatchItem>, pr: Provider)
    requires AllSourced(a, log, all, pr) && AllSourced(b, log, all, pr)
    ensures AllSourced(Merged(a, b), log, all, pr)
  {
    hide Sourced, FailedAlone;
  }

  lemma SourcedNone(r: BatchResult, log: seq<Request>, all: seq<BatchItem>, pr: Provider)
    requires r.outputs == map[] && r.errors == map[]
    ensures AllSourced(r, log, all, pr)
  {
  }

  lemma FailedGrows(log: seq<Request>, more: seq<Request>, k: nat, id: string, category: Category, all: seq<BatchItem>, pr: Provider)
    requires FailedBy(log, k, id, category, all, pr) && log <= more
    ensures FailedBy(more, k, id, category, all, pr)
  {
    var n, item :| GaveUp(log, k, n, item, category, pr) && item in all && item.id == id;
    assert forall j :: 0 <= j < |log| ==> more[j] == log[j];
    assert GaveUp(more, k, n, item, category, pr);
  }

  /** A longer log and other counters change nothing. */
  lemma SourcedGrows(r: BatchResult, after: BatchResult, log: seq<Request>, more: seq<Request>,
                     all: seq<BatchItem>, pr: Provider)
    requires AllSourced(r, log, all, pr) && log <= more
    requires after.outputs == r.outputs && after.errors == r.errors
    ensures AllSourced(after, more, all, pr)
  {
    hide SaidBy, FailedBy;
    forall id | id in r.outputs ensures Sourced(id, r.outputs[id], more, all, pr) {
      var k :| 0 <= k < |log| && SaidBy(log[k], id, r.outputs[id], all, pr);
      assert more[k] == log[k];
    }
    forall id | id in r.errors ensures FailedAlone(id, r.errors[id], more, all, pr) {
      var k :| 0 <= k < |log| && FailedBy(log, k, id, r.errors[id], all, pr);
      FailedGrows(log, more, k, id, r.errors[id], all, pr);
    }
  }

  lemma SourcedSingle(item: BatchItem, output: MatchOutput, log: seq<Request>, all: seq<BatchItem>, pr: Provider)
    requires log != [] && var last := log[|log| - 1]; last.SingleAsked? && last.item == item && pr.singles(last.tick) == Answered(output)
    requires item in all
    ensures Sourced(item.id, output, log, all, pr)
  {
    assert SaidBy(log[|log| - 1], item.id, output, all, pr);
  }

  lemma FailedSingle(item: BatchItem, category: Category, n: nat, log: seq<Request>, all: seq<BatchItem>, pr: Provider)
    requires log != [] && GaveUp(log, |log| - 1, n, item, category, pr)
    requires item in all
    ensures FailedAlone(item.id, category, log, all, pr)
  {
    hide GaveUp;
    assert FailedBy(log, |log| - 1, item.id, category, all, pr);
  }

  /** The outputs of a batch request just logged are sourced. */
  lemma SourcedBatch(outputs: map<string, MatchOutput>, log: seq<Request>, tick: nat, batch: seq<BatchItem>,
                     all: seq<BatchItem>, pr: Provider)
    requires log != [] && log[|log| - 1] == BatchAsked(tick, batch) && multiset(batch) <= multiset(all)
    requires outputs.Keys <= IdSet(batch)
    requires forall id :: id in outputs ==> Judged(id, outputs[id], pr.script(tick), batch)
    ensures forall id :: id in outputs ==> Sourced(id, outputs[id], log, all, pr)
  {
    hide Judged, IdSet;
    forall id | id in outputs ensures Sourced(id, outputs[id], log, all, pr) {
      assert SaidBy(log[|log| - 1], id, outputs[id], all, pr);
    }
  }

  /** The unresolved items of a batch, or a slice of them, are items of the batch. */
  lemma {:induction false} UnresolvedWithin(items: seq<BatchItem>, outputs: map<string, MatchOutput>)
    ensures multiset(Unresolved(items, outputs)) <= multiset(items)
  {
    if items != [] {
      UnresolvedWithin(items[1..], outputs);
      assert items == [items[0]] + items[1..];
    }
  }

  lemma SliceWithin(items: seq<BatchItem>, mid: nat)
    requires mid <= |items|
    ensures multiset(items[..mid]) <= multiset(items) && multiset(items[mid..]) <= multiset(items)
  {
    assert items == items[..mid] + items[mid..];
  }

  /* ---- what that means for well-named items ---- */

  /** The verdict of an id list on item `i`, in terms of what names that item. */
  ghost predicate OwnListed(output: MatchOutput, matches: seq<string>, reviews: seq<ReviewItem>, ids: seq<string>, i: nat)
    requires i < |ids|
  {
    if exists k :: 0 <= k < |matches| && Says(matches[k], ids, i) then output == IdListMatch
    else if exists k :: 0 <= k < |reviews| && Says(reviews[k].rawId, ids, i) then
      exists k :: && 0 <= k < |reviews| && Says(reviews[k].rawId, ids, i) && output == IdListReview(reviews[k].reason)
                  && forall j :: k < j < |reviews| ==> !Says(reviews[j].rawId, ids, i)
    else output == IdListReject
  }

  ghost predicate OwnDecided(output: MatchOutput, decisions: seq<Historical>, ids: seq<string>, i: nat)
    requires i < |ids|
  {
    exists k :: && 0 <= k < |decisions| && Says(decisions[k].rawId, ids, i)
                && decisions[k].valid && decisions[k].output == output
                && forall j :: 0 <= j < k ==> !Says(decisions[j].rawId, ids, i)
  }

  /** A logged request showed the item under its own token, and this was the answer about it. */
  ghost predicate OwnSaid(r: Request, id: string, output: MatchOutput, all: seq<BatchItem>, pr: Provider) {
    match r
    case SingleAsked(tick, item) => item in all && item.id == id && pr.singles(tick) == Answered(output)
    case BatchAsked(tick, batch) =>
      && multiset(batch) <= multiset(all)
      && exists i :: && 0 <= i < |batch| && batch[i].id == id
                     && OwnVerdict(output, pr.script(tick), IdsOf(batch), i)
  }

  ghost predicate OwnVerdict(output: MatchOutput, answer: BatchAnswer, ids: seq<string>, i: nat) {
    && i < |ids|
    && match answer
       case BatchFailed(_) => false
       case IdList(matches, reviews) => OwnListed(output, matches, reviews, ids, i)
       case Decisions(decisions) => OwnDecided(output, decisions, ids, i)
  }

  lemma NamedByOwn(ids: seq<string>, i: nat, raws: seq<string>)
    requires WellNamed(ids) && i < |ids|
    ensures Named(ids[i], raws, TokensOf(ids)) <==> exists k :: 0 <= k < |raws| && Says(raws[k], ids, i)
  {
    hide WellNamed, Resolve, TokensOf, Says;
    forall k | 0 <= k < |raws| ensures Resolve(raws[k], TokensOf(ids)) == Some(ids[i]) <==> Says(raws[k], ids, i) {
      ResolvesToOwn(ids, i, raws[k]);
    }
  }

  lemma {:induction false} ReasonByOwn(ids: seq<string>, i: nat, reviews: seq<ReviewItem>)
    requires WellNamed(ids) && i < |ids|
    ensures match LastReason(ids[i], reviews, TokensOf(ids))
            case None => forall k :: 0 <= k < |reviews| ==> !Says(reviews[k].rawId, ids, i)
            case Some(reason) =>
              exists k :: && 0 <= k < |reviews| && Says(reviews[k].rawId, ids, i) && reviews[k].reason == reason
                          && forall j :: k < j < |reviews| ==> !Says(reviews[j].rawId, ids, i)
    decreases |reviews|
  {
    hide WellNamed, Resolve, TokensOf, Says;
    if reviews != [] {
      var n := |reviews| - 1;
      var front := reviews[..n];
      ResolvesToOwn(ids, i, reviews[n].rawId);
      ReasonByOwn(ids, i, front);
      if !Says(reviews[n].rawId, ids, i) {
        var found := LastReason(ids[i], front, TokensOf(ids));
        assert LastReason(ids[i], reviews, TokensOf(ids)) == found;
        if found.Some? {
          var k :| && 0 <= k < |front| && Says(front[k].rawId, ids, i) && front[k].reason == found.value
                   && forall j :: k < j < |front| ==> !Says(front[j].rawId, ids, i);
          assert reviews[k] == front[k];
          forall j | k < j < |reviews| ensures !Says(reviews[j].rawId, ids, i) {
            assert j < n ==> reviews[j] == front[j];
          }
        } else {
          forall k | 0 <= k < |reviews| ensures !Says(reviews[k].rawId, ids, i) {
            assert k < n ==> reviews[k] == front[k];
          }
        }
      } else {
        assert Says(reviews[n].rawId, ids, i);
      }
    }
  }

  lemma JudgedByOwn(batch: seq<BatchItem>, i: nat, output: MatchOutput, answer: BatchAnswer)
    requires i < |batch| && WellNamed(IdsOf(batch)) && Judged(batch[i].id, output, answer, batch)
    ensures OwnVerdict(output, answer, IdsOf(batch), i)
  {
    hide WellNamed, Resolve, TokensOf, Says;
    var ids := IdsOf(batch);
    assert ids[i] == batch[i].id;
    match answer
    case BatchFailed(_) =>
    case IdList(matches, reviews) =>
      NamedByOwn(ids, i, matches);
      ReasonByOwn(ids, i, reviews);
    case Decisions(decisions) =>
      var k :| 0 <= k < |decisions| && FirstFor(decisions, k, TokensOf(ids)) && decisions[k].valid
               && decisions[k].output == output && Resolve(decisions[k].rawId, TokensOf(ids)) == Some(ids[i]);
      ResolvesToOwn(ids, i, decisions[k].rawId);
      forall j | 0 <= j < k ensures !Says(decisions[j].rawId, ids, i) {
        ResolvesToOwn(ids, i, decisions[j].rawId);
        EarlierNamed(decisions, j, k, TokensOf(ids));
      }
  }

  lemma {:induction false} EarlierNamed(decisions: seq<Historical>, j: nat, n: nat, tokens: map<string, string>)
    requires j < n <= |decisions|
    ensures Resolve(decisions[j].rawId, tokens).Some? ==>
              Resolve(decisions[j].rawId, tokens).value in NamedBy(decisions, n, tokens)
    decreases n
  {
    hide Resolve;
    if j < n - 1 {
      EarlierNamed(decisions, j, n - 1, tokens);
    }
  }

  lemma WithinWellNamed(batch: seq<BatchItem>, all: seq<BatchItem>)
    requires multiset(batch) <= multiset(all) && WellNamed(IdsOf(all))
    ensures WellNamed(IdsOf(batch))
  {
    hide Plain, Numbered, Trimmed;
    var ids, names := IdsOf(batch), IdsOf(all);
    forall i | 0 <= i < |batch| ensures exists k :: 0 <= k < |all| && all[k] == batch[i] {
      assert batch[i] in multiset(batch);
      assert batch[i] in multiset(all);
    }
    forall i | 0 <= i < |ids| ensures ids[i] in names {
      var k :| 0 <= k < |all| && all[k] == batch[i];
      assert names[k] == ids[i];
    }
    DistinctWithin(batch, all);
  }

  lemma DistinctWithin(batch: seq<BatchItem>, all: seq<BatchItem>)
    requires multiset(batch) <= multiset(all) && Distinct(IdsOf(all))
    ensures Distinct(IdsOf(batch))
  {
    assert Distinct(all) by {
      forall x, y | 0 <= x < y < |all| ensures all[x] != all[y] {
        assert IdsOf(all)[x] != IdsOf(all)[y];
      }
    }
    forall i, j | 0 <= i < j < |batch| ensures IdsOf(batch)[i] != IdsOf(batch)[j] {
      DistinctCount(all, batch[i]);
      assert batch == batch[..j] + batch[j..];
      assert batch[i] in batch[..j] && batch[j] in batch[j..];
      assert batch[i] in multiset(batch) && batch[j] in multiset(batch);
      assert batch[i] != batch[j];
      assert batch[i] in multiset(all) && batch[j] in multiset(all);
      var a :| 0 <= a < |all| && all[a] == batch[i];
      var b :| 0 <= b < |all| && all[b] == batch[j];
      assert IdsOf(all)[a] != IdsOf(all)[b];
    }
  }

  /** For well-named items every output is the provider's verdict on that item's own token, in a request that was
      made for items of this call. */
  lemma OutputsAreOwnVerdicts(r: BatchResult, log: seq<Request>, all: seq<BatchItem>, pr: Provider)
    requires AllSourced(r, log, all, pr) && WellNamed(IdsOf(all))
    ensures forall id :: id in r.outputs ==>
              exists k :: 0 <= k < |log| && OwnSaid(log[k], id, r.outputs[id], all, pr)
  {
    hide WellNamed, Judged, OwnVerdict;
    forall id | id in r.outputs
      ensures exists k :: 0 <= k < |log| && OwnSaid(log[k], id, r.outputs[id], all, pr)
    {
      var k :| 0 <= k < |log| && SaidBy(log[k], id, r.outputs[id], all, pr);
      if log[k].BatchAsked? {
        var batch := log[k].batch;
        WithinWellNamed(batch, all);
        var i :| 0 <= i < |batch| && batch[i].id == id;
        JudgedByOwn(batch, i, r.outputs[id], pr.script(log[k].tick));
      }
      assert OwnSaid(log[k], id, r.outputs[id], all, pr);
    }
  }

  /* ---- the provider client ---- */

  /** A client with an arbitrary provider: the answer to the request made at each tick is fixed by the
      scripts, and the caller's context is cancelled from tick `cancelAt` on, if ever. */
  class DeepSeek {
    const maxAttempts: nat
    const maxConcurrency: nat
    const maxBatchSize: int
    const tokenBudget: int
    const batchAnswers: nat -> BatchAnswer
    const singleAnswers: nat -> SingleAnswer
    const cancelAt: Option<nat>
    var clock: nat
    /** The HTTP requests of the current call. */
    ghost var requests: seq<Request>

    constructor (maxAttempts: nat, maxConcurrency: nat, maxBatchSize: int, tokenBudget: int,
                 batchAnswers: nat -> BatchAnswer, singleAnswers: nat -> SingleAnswer, cancelAt: Option<nat>)
      ensures this.maxAttempts == if 1 <= maxAttempts <= 5 then maxAttempts else 3
      ensures this.maxConcurrency == if 1 <= maxConcurrency <= 6 then maxConcurrency else 5
      ensures this.maxBatchSize == if 1 <= maxBatchSize <= 80 then maxBatchSize else 50
      ensures this.tokenBudget == if tokenBudget < 4000 then 120000 else tokenBudget
      ensures Configured()
    {
      this.maxAttempts := if 1 <= maxAttempts <= 5 then maxAttempts else 3;
      this.maxConcurrency := if 1 <= maxConcurrency <= 6 then maxConcurrency else 5;
      this.maxBatchSize := if 1 <= maxBatchSize <= 80 then maxBatchSize else DEFAULT_BATCH_SIZE;
      this.tokenBudget := if tokenBudget < 4000 then DEFAULT_TOKEN_BUDGET else tokenBudget;
      this.batchAnswers, this.singleAnswers, this.cancelAt := batchAnswers, singleAnswers, cancelAt;
      clock, requests := 0, [];
    }

    function Behaviour(): Provider { Provider(batchAnswers, singleAnswers, maxAttempts) }

    predicate Configured() { maxAttempts >= 1 && maxConcurrency >= 1 }

    predicate Cancelled()
      reads this
    {
      cancelAt.Some? && cancelAt.value <= clock
    }

    /** waitForSlot and sleepContext: time passes; a cancelled context is an error. */
    method Wait() returns (ok: bool)
      modifies this
      ensures clock == old(clock) + 1 && ok == !Cancelled() && requests == old(requests)
    {
      clock := clock + 1;
      ok := !(cancelAt.Some? && cancelAt.value <= clock);
    }

    /** The last request was for this item alone and got this answer. */
    ghost predicate LastSaid(item: BatchItem, answer: SingleAnswer)
      reads this
    {
      requests != [] && var last := requests[|requests| - 1];
      last.SingleAsked? && last.item == item && singleAnswers(last.tick) == answer
    }

    /** CompleteDetailed: one item, retried while the failure category is worth it. */
    method CompleteDetailed(item: BatchItem) returns (output: Option<MatchOutput>, stats: Stats, category: Category)
      requires Configured()
      modifies this
      ensures stats.httpAttempts == |requests| - |old(requests)| <= maxAttempts && stats.batches == 0
      ensures output.Some? ==>
                && LastSaid(item, Answered(output.value))
                && Series(requests, |requests| - 1, stats.httpAttempts, item, Behaviour())
      ensures output.None? ==>
                Cancelled() || (requests != [] && GaveUp(requests, |requests| - 1, stats.httpAttempts, item, category, Behaviour()))
      ensures old(clock) <= clock && old(requests) <= requests
    {
      stats, category, output := NoStats, InvalidResponse, None;
      var attempt := 1;
      while attempt <= maxAttempts
        invariant 1 <= attempt <= maxAttempts && stats.batches == 0
        invariant stats.httpAttempts == attempt - 1 == |requests| - |old(requests)| && output.None?
        invariant forall j :: |old(requests)| <= j < |requests| ==>
                    && requests[j].SingleAsked? && requests[j].item == item
                    && singleAnswers(requests[j].tick).SingleFailed?
                    && WorthRetry(singleAnswers(requests[j].tick).category, j - |old(requests)| + 1)
        invariant old(clock) <= clock && old(requests) <= requests
      {
        var ok := Wait();
        if !ok {
          return None, stats.(category := Some(Canceled)), Canceled;
        }
        var answer := singleAnswers(clock);
        requests := requests + [SingleAsked(clock, item)];
        clock := clock + 1;
        stats := stats.(httpAttempts := stats.httpAttempts + 1);
        if answer.Answered? {
          return Some(answer.output), stats.(retries := stats.httpAttempts - 1), category;
        }
        category := answer.category;
        stats := stats.(category := Some(category));
        if attempt == maxAttempts || !Retryable(category, attempt) {
          break;
        }
        stats := stats.(retries := stats.retries + 1);
        ok := Wait();
        if !ok {
          stats, category := stats.(category := Some(Canceled)), Canceled;
          break;
        }
        attempt := attempt + 1;
      }
    }

    /** completeBatchOnce after the HTTP exchange. */
    method CompleteBatchOnce(items: seq<BatchItem>)
      returns (outputs: map<string, MatchOutput>, unresolved: seq<BatchItem>, failure: Option<Category>)
      modifies this
      ensures clock == old(clock) + 1 && requests == old(requests) + [BatchAsked(old(clock), items)]
      ensures outputs.Keys <= IdSet(items)
      ensures forall id :: id in outputs ==> Judged(id, outputs[id], batchAnswers(old(clock)), items)
      ensures failure.None? ==> unresolved == Unresolved(items, outputs)
      ensures failure.Some? ==> outputs == map[] && unresolved == items
      ensures failure == BatchFailure(batchAnswers(old(clock)), items)
    {
      var tokens := TokensOf(IdsOf(items));
      TokenIds(IdsOf(items));
      var answer := batchAnswers(clock);
      requests := requests + [BatchAsked(clock, items)];
      clock := clock + 1;
      match answer
      case BatchFailed(category) =>
        outputs, unresolved, failure := map[], items, Some(category);
      case IdList(matches, reviews) =>
        outputs := ApplyIdList(matches, reviews, items, tokens);
        AllResolved(items, outputs);
        unresolved, failure := [], None;
      case Decisions(decisions) =>
        var ok;
        outputs, ok := ApplyDecisions(decisions, items, tokens);
        if !ok {
          outputs, unresolved, failure := map[], items, Some(InvalidResponse);
        } else {
          unresolved, failure := Unresolved(items, outputs), None;
        }
    }

    /** The batch answer at this tick failed in a way worth a retry. */
    ghost predicate RetriedAfter(tick: nat, items: seq<BatchItem>, attempt: nat) {
      var failure := BatchFailure(batchAnswers(tick), items);
      failure.Some? && WorthRetry(failure.value, attempt)
    }

    /** completeBatchWithRetries. */
    method CompleteBatchWithRetries(items: seq<BatchItem>, ghost all: seq<BatchItem>)
      returns (outputs: map<string, MatchOutput>, unresolved: seq<BatchItem>, stats: Stats, failed: bool)
      requires Configured() && multiset(items) <= multiset(all)
      modifies this
      ensures stats.httpAttempts == |requests| - |old(requests)| <= maxAttempts && stats.batches == 0
      ensures outputs.Keys <= IdSet(items)
      ensures forall id :: id in outputs ==> Sourced(id, outputs[id], requests, all, Behaviour())
      ensures !failed ==> unresolved == Unresolved(items, outputs)
      ensures failed ==> outputs == map[] && unresolved == items
      ensures old(clock) <= clock && old(requests) <= requests
      ensures forall j :: |old(requests)| <= j < |requests| ==> requests[j].BatchAsked? && requests[j].batch == items
      ensures forall j :: |old(requests)| <= j < |requests| - 1 ==>
                RetriedAfter(requests[j].tick, items, j - |old(requests)| + 1)
      ensures failed && !Cancelled() ==>
                && requests != old(requests)
                && var last := BatchFailure(batchAnswers(requests[|requests| - 1].tick), items);
                last.Some? && (stats.httpAttempts == maxAttempts || !WorthRetry(last.value, stats.httpAttempts))
      ensures !failed ==> requests != old(requests) && BatchFailure(batchAnswers(requests[|requests| - 1].tick), items).None?
    {
      hide Sourced, Judged, IdSet, Unresolved, BatchFailure;
      stats := NoStats;
      var attempt := 1;
      while attempt <= maxAttempts
        invariant 1 <= attempt <= maxAttempts && stats.batches == 0
        invariant stats.httpAttempts == attempt - 1 == |requests| - |old(requests)|
        invariant old(clock) <= clock && old(requests) <= requests
        invariant forall j :: |old(requests)| <= j < |requests| ==>
                    && requests[j].BatchAsked? && requests[j].batch == items
                    && RetriedAfter(requests[j].tick, items, j - |old(requests)| + 1)
      {
        var ok := Wait();
        if !ok {
          return map[], items, stats.(category := Some(Canceled)), true;
        }
        var failure;
        outputs, unresolved, failure := CompleteBatchOnce(items);
        stats := stats.(httpAttempts := stats.httpAttempts + 1);
        if failure.None? {
          SourcedBatch(outputs, requests, clock - 1, items, all, Behaviour());
          return outputs, unresolved, stats.(retries := stats.httpAttempts - 1), false;
        }
        stats := stats.(category := failure);
        if attempt == maxAttempts || !Retryable(failure.value, attempt) {
          break;
        }
        stats := stats.(retries := stats.retries + 1);
        ok := Wait();
        if !ok {
          break;
        }
        attempt := attempt + 1;
      }
      outputs, unresolved, failed := map[], items, true;
    }

    /** completeBatchRecursive: resolve every item, splitting what a batch left open in half.
        Only a cancelled context makes it give up. */
    method CompleteBatchRecursive(items: seq<BatchItem>, before: BatchResult, ghost all: seq<BatchItem>)
      returns (result: BatchResult, ok: bool, ghost depth: nat)
      requires Configured() && multiset(items) <= multiset(all)
      requires AllSourced(before, requests, all, Behaviour())
      modifies this
      ensures !ok ==> Cancelled()
      ensures ok ==> Resolved(before, result, items) && StaysExclusive(before, result, items)
      ensures AllSourced(result, requests, all, Behaviour())
      ensures WithinCalls(before.stats, result.stats, MaxCalls(|items|), maxAttempts)
      ensures depth <= Levels(|items|)
      ensures old(clock) <= clock && old(requests) <= requests
      decreases |items|, 2
    {
      hide Resolved, StaysExclusive, WithinCalls, IdSet, DistinctIds, Unresolved, CountCall, AllSourced, Sourced, FailedAlone;
      result, depth := before, 1;
      NothingResolved(before);
      NoCalls(before.stats, maxAttempts);
      if |items| == 0 {
        return result, true, depth;
      }
      if |items| == 1 {
        var item := items[0];
        assert items == [item];
        var output, stats, category := CompleteDetailed(item);
        CallCounted(before.stats, stats, maxAttempts, 1);
        result := result.(stats := CountCall(result.stats, stats));
        SourcedGrows(before, result, old(requests), requests, all, Behaviour());
        ghost var grown := result;
        assert item in multiset(items);
        if output.None? {
          if Cancelled() {
            return result, false, depth;
          }
          result := result.(errors := result.errors[item.id := category]);
          OneResolved(before, result, item, IdListReject, category);
          FailedSingle(item, category, stats.httpAttempts, requests, all, Behaviour());
          SourcedOne(grown, result, item.id, IdListReject, category, requests, all, Behaviour());
          return result, true, depth;
        }
        result := result.(outputs := result.outputs[item.id := output.value]);
        OneResolved(before, result, item, output.value, category);
        SourcedSingle(item, output.value, requests, all, Behaviour());
        SourcedOne(grown, result, item.id, output.value, category, requests, all, Behaviour());
        return result, true, depth;
      }
      result, ok, depth := CompleteLargeBatch(items, before, all);
    }

    /** The branch for two or more items. */
    method CompleteLargeBatch(items: seq<BatchItem>, before: BatchResult, ghost all: seq<BatchItem>)
      returns (result: BatchResult, ok: bool, ghost depth: nat)
      requires Configured() && |items| >= 2 && multiset(items) <= multiset(all)
      requires AllSourced(before, requests, all, Behaviour())
      modifies this
      ensures !ok ==> Cancelled()
      ensures ok ==> Resolved(before, result, items) && StaysExclusive(before, result, items)
      ensures AllSourced(result, requests, all, Behaviour())
      ensures WithinCalls(before.stats, result.stats, MaxCalls(|items|), maxAttempts)
      ensures depth <= Levels(|items|)
      ensures old(clock) <= clock && old(requests) <= requests
      decreases |items|, 1
    {
      hide Resolved, StaysExclusive, WithinCalls, IdSet, DistinctIds, Unresolved, CountCall, AllSourced, Sourced, FailedAlone;
      depth := 1;
      var outputs, unresolved, stats, failed := CompleteBatchWithRetries(items, all);
      result := WithOutputs(before, outputs, CountCall(before.stats, stats));
      CallCounted(before.stats, stats, maxAttempts, 1);
      WidenCalls(before.stats, result.stats, 1, MaxCalls(|items|), maxAttempts);
      UnresolvedIds(items, outputs);
      SourcedGrows(before, before, old(requests), requests, all, Behaviour());
      SourcedWith(before, outputs, result.stats, requests, all, Behaviour());
      UnresolvedWithin(items, outputs);
      if !failed && |unresolved| == 0 {
        NoIds();
        assert unresolved == [];
        assert IdSet(items) == outputs.Keys + (IdSet(items) - outputs.Keys);
        BatchResolved(before, outputs, result.stats, items);
        return result, true, depth;
      }
      if Cancelled() {
        return result, false, depth;
      }
      if |unresolved| == 0 {
        unresolved := items;
      }
      var mid := (|unresolved| + 1) / 2;
      SplitIds(unresolved, mid);
      ghost var first, second := result, result;
      ghost var below;
      result, ok, second, below := ResolveHalves(unresolved, mid, |items|, result, all);
      depth := 1 + below;
      LevelsMonotone(mid, (|items| + 1) / 2);
      LevelsMonotone(|unresolved| - mid, (|items| + 1) / 2);
      CallsChain(before.stats, first.stats, result.stats, 1, MaxCalls(mid) + MaxCalls(|unresolved| - mid), maxAttempts);
      WidenCalls(before.stats, result.stats, 1 + MaxCalls(mid) + MaxCalls(|unresolved| - mid), MaxCalls(|items|), maxAttempts);
      if ok {
        HalvesResolved(before, outputs, first.stats, second, result, items, unresolved[..mid], unresolved[mid..]);
      }
    }

    /** The left half, then the right half. */
    method ResolveHalves(items: seq<BatchItem>, mid: nat, ghost bound: nat, before: BatchResult, ghost all: seq<BatchItem>)
      returns (result: BatchResult, ok: bool, ghost second: BatchResult, ghost depth: nat)
      requires Configured() && mid <= |items| && mid < bound && |items| - mid < bound && multiset(items) <= multiset(all)
      requires AllSourced(before, requests, all, Behaviour())
      modifies this
      ensures !ok ==> Cancelled()
      ensures ok ==>
                && Resolved(before, second, items[..mid]) && StaysExclusive(before, second, items[..mid])
                && Resolved(second, result, items[mid..]) && StaysExclusive(second, result, items[mid..])
      ensures AllSourced(result, requests, all, Behaviour())
      ensures WithinCalls(before.stats, result.stats, MaxCalls(mid) + MaxCalls(|items| - mid), maxAttempts)
      ensures depth <= Levels(mid) || depth <= Levels(|items| - mid)
      ensures old(clock) <= clock && old(requests) <= requests
      decreases bound, 0
    {
      hide Resolved, StaysExclusive, WithinCalls, IdSet, DistinctIds, AllSourced, MaxCalls;
      SliceWithin(items, mid);
      result, ok, depth := CompleteBatchRecursive(items[..mid], before, all);
      second := result;
      WidenCalls(before.stats, second.stats, MaxCalls(mid), MaxCalls(mid) + MaxCalls(|items| - mid), maxAttempts);
      if !ok {
        return;
      }
      ghost var right;
      result, ok, right := CompleteBatchRecursive(items[mid..], result, all);
      depth := if right > depth then right else depth;
      CallsChain(before.stats, second.stats, result.stats, MaxCalls(mid), MaxCalls(|items| - mid), maxAttempts);
    }

    /** One wave: every batch runs on its own result, then all are waited for. */
    method RunWave(batches: seq<seq<BatchItem>>, ghost all: seq<BatchItem>) returns (wave: seq<BatchResult>, ok: seq<bool>)
      requires Configured() && forall i :: 0 <= i < |batches| ==> multiset(batches[i]) <= multiset(all)
      modifies this
      ensures |wave| == |ok| == |batches|
      ensures forall i :: 0 <= i < |batches| && ok[i] ==> Answers(wave[i], batches[i], maxAttempts)
      ensures forall i :: 0 <= i < |batches| ==> AllSourced(wave[i], requests, all, Behaviour())
      ensures (exists i :: 0 <= i < |batches| && !ok[i]) ==> Cancelled()
      ensures old(clock) <= clock && old(requests) <= requests
    {
      hide Answers, AllSourced;
      wave, ok := [], [];
      for i := 0 to |batches|
        invariant |wave| == |ok| == i
        invariant forall k :: 0 <= k < i && ok[k] ==> Answers(wave[k], batches[k], maxAttempts)
        invariant forall k :: 0 <= k < i ==> AllSourced(wave[k], requests, all, Behaviour())
        invariant (exists k :: 0 <= k < i && !ok[k]) ==> Cancelled()
        invariant old(clock) <= clock && old(requests) <= requests
      {
        ghost var log := requests;
        SourcedNone(EmptyResult, requests, all, Behaviour());
        var result, done, _ := CompleteBatchRecursive(batches[i], EmptyResult, all);
        forall k | 0 <= k < i ensures AllSourced(wave[k], requests, all, Behaviour()) {
          SourcedGrows(wave[k], wave[k], log, requests, all, Behaviour());
        }
        if done {
          BatchAnswers(result, batches[i], maxAttempts);
        }
        wave, ok := wave + [result], ok + [done];
      }
    }

    /** After the barrier: the wave's results in order, up to the first one that was given up. */
    method MergeWave(before: BatchResult, wave: seq<BatchResult>, done: seq<bool>, ghost packed: seq<seq<BatchItem>>,
                     ghost offset: nat, ghost items: seq<BatchItem>)
      returns (result: BatchResult, adverse: bool, ok: bool)
      requires |wave| == |done| && offset + |wave| <= |packed|
      requires Progress(before, packed, offset, items, maxAttempts)
      requires forall i :: 0 <= i < |wave| && done[i] ==> Answers(wave[i], packed[offset + i], maxAttempts)
      requires AllSourced(before, requests, items, Behaviour())
      requires forall i :: 0 <= i < |wave| ==> AllSourced(wave[i], requests, items, Behaviour())
      ensures ok <==> forall i :: 0 <= i < |wave| ==> done[i]
      ensures ok ==> Progress(result, packed, offset + |wave|, items, maxAttempts)
      ensures ok ==> (adverse <==> exists i ::
                0 <= i < |wave| && wave[i].stats.category in {Some(RateLimit), Some(Timeout), Some(ContextLimit), Some(InvalidResponse)})
      ensures AllSourced(result, requests, items, Behaviour())
    {
      hide AllSourced, Progress, Answers;
      result, adverse := before, false;
      for i := 0 to |wave|
        invariant Progress(result, packed, offset + i, items, maxAttempts)
        invariant AllSourced(result, requests, items, Behaviour())
        invariant adverse <==> exists k ::
                    0 <= k < i && wave[k].stats.category in {Some(RateLimit), Some(Timeout), Some(ContextLimit), Some(InvalidResponse)}
        invariant forall k :: 0 <= k < i ==> done[k]
      {
        if !done[i] {
          return result, adverse, false;
        }
        MergeProgress(result, wave[i], packed, offset + i, items, maxAttempts);
        SourcedMerged(result, wave[i], requests, items, Behaviour());
        result := Merged(result, wave[i]);
        if Adverse(wave[i].stats.category) {
          adverse := true;
        }
      }
      ok := true;
    }

    /** The waves over the packed batches, with the concurrency adapted after each. */
    method RunPacked(packed: seq<seq<BatchItem>>, ghost items: seq<BatchItem>)
      returns (result: BatchResult, ok: bool, ghost sizes: seq<nat>, ghost waves: seq<bool>)
      requires Configured() && Concat(packed) == items
      modifies this
      ensures !ok ==> Cancelled()
      ensures ok ==> Progress(result, packed, |packed|, items, maxAttempts)
      ensures AllSourced(result, requests, items, Behaviour())
      ensures WaveSizes(sizes, waves, |packed|, maxConcurrency) && (ok ==> Covered(sizes) == |packed|)
    {
      hide AllSourced, Progress, Answers, Concat, Covered, AdaptAll;
      result, sizes, waves := EmptyResult, [], [];
      CoveredNone(maxConcurrency);
      var control := Controller(maxConcurrency, 0);
      var offset := 0;
      StartProgress(packed, items, maxAttempts);
      PackedWithin(packed, items);
      SourcedNone(result, requests, items, Behaviour());
      while offset < |packed|
        invariant 0 <= offset <= |packed|
        invariant 1 <= control.concurrency <= maxConcurrency
        invariant Progress(result, packed, offset, items, maxAttempts)
        invariant AllSourced(result, requests, items, Behaviour())
        invariant WaveSizes(sizes, waves, |packed|, maxConcurrency) && Covered(sizes) == offset
        invariant control == AdaptAll(Controller(maxConcurrency, 0), waves, maxConcurrency)
      {
        if Cancelled() {
          return result, false, sizes, waves;
        }
        var size := if control.concurrency < |packed| - offset then control.concurrency else |packed| - offset;
        ghost var log := requests;
        var wave, done := RunWave(packed[offset..offset + size], items);
        SourcedGrows(result, result, log, requests, items, Behaviour());
        var merged, adverse;
        merged, adverse, ok := MergeWave(result, wave, done, packed, offset, items);
        result := merged;
        if !ok {
          return;
        }
        CoveredMore(sizes, size);
        AdaptLast(Controller(maxConcurrency, 0), waves, adverse, maxConcurrency);
        WaveSizesMore(sizes, waves, size, adverse, |packed|, maxConcurrency);
        sizes, waves := sizes + [size], waves + [adverse];
        offset := offset + size;
        control := Adapt(control, adverse, maxConcurrency);
      }
      ok := true;
    }

    /** CompleteBatchDetailed: unless the context is cancelled, every item id is answered or failed,
        nothing else is, and with distinct ids never both; n items cost at most 2n-1 batch calls. Every output was
        said by the provider about that item in a request of this call. */
    method CompleteBatchDetailed(shared: string, items: seq<BatchItem>)
      returns (result: BatchResult, ok: bool, ghost packed: seq<seq<BatchItem>>, ghost sizes: seq<nat>, ghost waves: seq<bool>)
      requires Configured()
      modifies this
      ensures IsSplit(packed, items, EffectiveLimits(shared, maxBatchSize, tokenBudget))
      ensures WaveSizes(sizes, waves, |packed|, maxConcurrency) && (ok ==> Covered(sizes) == |packed|)
      ensures !ok ==> Cancelled()
      ensures ok ==> Keys(result) == IdSet(items)
      ensures ok && DistinctIds(items) ==> Exclusive(result)
      ensures ok ==> result.stats.batches <= MaxCalls(|items|)
      ensures ok ==> result.stats.httpAttempts <= maxAttempts * result.stats.batches
      ensures AllSourced(result, requests, items, Behaviour())
      ensures WellNamed(IdsOf(items)) ==>
                forall id :: id in result.outputs ==>
                  exists k :: 0 <= k < |requests| && OwnSaid(requests[k], id, result.outputs[id], items, Behaviour())
    {
      hide AllSourced, Progress, OwnSaid, WellNamed, DistinctIds, IdSet, Fits, Concat, MaxCalls, WaveSizes;
      requests := [];
      var batches := PackBatchItems(shared, items, maxBatchSize, tokenBudget);
      packed := batches;
      result, ok, sizes, waves := RunPacked(batches, items);
      if ok {
        EndProgress(result, packed, items, maxAttempts);
      }
      if WellNamed(IdsOf(items)) {
        OutputsAreOwnVerdicts(result, requests, items, Behaviour());
      }
    }
  }

  function Covered(sizes: seq<nat>): nat {
    if sizes == [] then 0 else Covered(sizes[..|sizes| - 1]) + sizes[|sizes| - 1]
  }

  /** Every wave is as large as the concurrency after the waves before it allows, or takes all that is left. */
  ghost predicate WaveSizes(sizes: seq<nat>, waves: seq<bool>, total: nat, limit: nat) {
    && |sizes| == |waves|
    && forall k :: 0 <= k < |sizes| ==>
         var allowed := AdaptAll(Controller(limit, 0), waves[..k], limit).concurrency;
         sizes[k] == if allowed < total - Covered(sizes[..k]) then allowed else total - Covered(sizes[..k])
  }

  lemma CoveredNone(limit: nat)
    ensures Covered([]) == 0 && AdaptAll(Controller(limit, 0), [], limit) == Controller(limit, 0)
  {
  }

  lemma CoveredMore(sizes: seq<nat>, size: nat)
    ensures Covered(sizes + [size]) == Covered(sizes) + size
  {
    assert (sizes + [size])[..|sizes|] == sizes;
  }

  lemma WaveSizesMore(sizes: seq<nat>, waves: seq<bool>, size: nat, adverse: bool, total: nat, limit: nat)
    requires WaveSizes(sizes, waves, total, limit) && Covered(sizes) <= total
    requires var allowed := AdaptAll(Controller(limit, 0), waves, limit).concurrency;
             size == if allowed < total - Covered(sizes) then allowed else total - Covered(sizes)
    ensures WaveSizes(sizes + [size], waves + [adverse], total, limit)
  {
    var s, w := sizes + [size], waves + [adverse];
    hide Covered, AdaptAll;
    forall k | 0 <= k < |s|
      ensures var allowed := AdaptAll(Controller(limit, 0), w[..k], limit).concurrency;
              s[k] == if allowed < total - Covered(s[..k]) then allowed else total - Covered(s[..k])
    {
      if k < |sizes| {
        assert s[..k] == sizes[..k] && w[..k] == waves[..k];
      } else {
        assert s[..k] == sizes && w[..k] == waves;
      }
    }
  }

  lemma {:induction false} PackedWithin(packed: seq<seq<BatchItem>>, items: seq<BatchItem>)
    requires Concat(packed) == items
    ensures forall i :: 0 <= i < |packed| ==> multiset(packed[i]) <= multiset(items)
  {
    if packed != [] {
      PackedWithin(packed[1..], Concat(packed[1..]));
      assert multiset(items) == multiset(packed[0]) + multiset(Concat(packed[1..]));
      forall i | 0 <= i < |packed| ensures multiset(packed[i]) <= multiset(items) {
        if i > 0 {
          assert packed[i] == packed[1..][i - 1];
        }
      }
    }
  }

  function Merged(a: BatchResult, b: BatchResult): BatchResult {
    BatchResult(a.outputs + b.outputs, a.errors + b.errors, Merge(a.stats, b.stats))
  }

  /** A complete result for one batch on its own. */
  predicate Answers(r: BatchResult, batch: seq<BatchItem>, attempts: nat) {
    && Keys(r) == IdSet(batch)
    && (DistinctIds(batch) ==> Exclusive(r))
    && WithinCalls(NoStats, r.stats, MaxCalls(|batch|), attempts)
  }

  lemma BatchAnswers(r: BatchResult, batch: seq<BatchItem>, attempts: nat)
    requires Resolved(EmptyResult, r, batch) && StaysExclusive(EmptyResult, r, batch)
    requires WithinCalls(NoStats, r.stats, MaxCalls(|batch|), attempts)
    ensures Answers(r, batch, attempts)
  {
    assert Keys(EmptyResult) == {};
  }

  /** The merged result of the first `k` batches. */
  predicate Progress(r: BatchResult, packed: seq<seq<BatchItem>>, k: nat, items: seq<BatchItem>, attempts: nat)
    requires k <= |packed|
  {
    && Concat(packed) == items
    && Keys(r) == IdSet(Concat(packed[..k]))
    && (DistinctIds(items) ==> Exclusive(r))
    && WithinCalls(NoStats, r.stats, MaxCalls(|Concat(packed[..k])|), attempts)
  }

  lemma StartProgress(packed: seq<seq<BatchItem>>, items: seq<BatchItem>, attempts: nat)
    requires Concat(packed) == items
    ensures Progress(EmptyResult, packed, 0, items, attempts)
  {
    NoIds();
  }

  lemma EndProgress(r: BatchResult, packed: seq<seq<BatchItem>>, items: seq<BatchItem>, attempts: nat)
    requires Progress(r, packed, |packed|, items, attempts)
    ensures Keys(r) == IdSet(items) && (DistinctIds(items) ==> Exclusive(r))
    ensures r.stats.batches <= MaxCalls(|items|) && r.stats.httpAttempts <= attempts * r.stats.batches
  {
    assert packed[..|packed|] == packed;
  }

  /** A prefix of batches and the next batch are a prefix of the items, split at the batch boundary. */
  lemma NextBatch(packed: seq<seq<BatchItem>>, k: nat, items: seq<BatchItem>)
    requires k < |packed| && Concat(packed) == items
    ensures Concat(packed[..k + 1]) == Concat(packed[..k]) + packed[k]
    ensures IdSet(Concat(packed[..k + 1])) == IdSet(Concat(packed[..k])) + IdSet(packed[k])
    ensures DistinctIds(items) ==> DistinctIds(packed[k]) && IdSet(Concat(packed[..k])) !! IdSet(packed[k])
  {
    hide IdSet, DistinctIds;
    var done, prefix := Concat(packed[..k]), Concat(packed[..k + 1]);
    ConcatNext(packed, k);
    ConcatPrefix(packed, k + 1);
    assert prefix[..|done|] == done && prefix[|done|..] == packed[k];
    SplitIds(prefix, |done|);
    assert items[..|prefix|] == prefix;
    SplitIds(items, |prefix|);
  }

  lemma ConcatNext(packed: seq<seq<BatchItem>>, k: nat)
    requires k < |packed|
    ensures Concat(packed[..k + 1]) == Concat(packed[..k]) + packed[k]
  {
    hide Concat;
    var front, last := packed[..k], [packed[k]];
    assert packed[..k + 1] == front + last;
    ConcatAppend(front, last);
    ConcatOne(packed[k]);
  }

  lemma ConcatOne(batch: seq<BatchItem>)
    ensures Concat([batch]) == batch
  {
    assert [batch][1..] == [];
  }

  lemma ConcatPrefix(packed: seq<seq<BatchItem>>, k: nat)
    requires k <= |packed|
    ensures Concat(packed[..k]) <= Concat(packed)
  {
    hide Concat;
    assert packed == packed[..k] + packed[k..];
    ConcatAppend(packed[..k], packed[k..]);
  }

  lemma MergedFacts(a: BatchResult, b: BatchResult)
    ensures Keys(Merged(a, b)) == Keys(a) + Keys(b)
    ensures Exclusive(a) && Exclusive(b) && Keys(a) !! Keys(b) ==> Exclusive(Merged(a, b))
  {
  }

  lemma MergeProgress(r: BatchResult, w: BatchResult, packed: seq<seq<BatchItem>>, k: nat, items: seq<BatchItem>, attempts: nat)
    requires k < |packed| && Progress(r, packed, k, items, attempts) && Answers(w, packed[k], attempts)
    ensures Progress(Merged(r, w), packed, k + 1, items, attempts)
  {
    hide DistinctIds, IdSet, Concat, Keys, Exclusive;
    NextBatch(packed, k, items);
    MergedFacts(r, w);
    var x, y := r.stats.batches, w.stats.batches;
    assert attempts * (x + y) == attempts * x + attempts * y;
  }

  lemma NoIds()
    ensures IdSet([]) == {}
  {
  }

  lemma NoCalls(s: Stats, attempts: nat)
    ensures forall calls: nat :: WithinCalls(s, s, calls, attempts)
  {
  }

  function CountCall(total: Stats, call: Stats): Stats {
    var merged := Merge(total, call);
    merged.(batches := merged.batches + 1)
  }

  lemma CallCounted(before: Stats, call: Stats, attempts: nat, calls: nat)
    requires call.batches == 0 && call.httpAttempts <= attempts && calls >= 1
    ensures WithinCalls(before, CountCall(before, call), calls, attempts)
  {
  }

  lemma WidenCalls(a: Stats, b: Stats, m: nat, n: nat, attempts: nat)
    requires WithinCalls(a, b, m, attempts) && m <= n
    ensures WithinCalls(a, b, n, attempts)
  {
  }

  lemma {:induction false} AllResolved(items: seq<BatchItem>, outputs: map<string, MatchOutput>)
    requires IdSet(items) <= outputs.Keys
    ensures Unresolved(items, outputs) == []
  {
    if items != [] {
      assert items == [items[0]] + items[1..];
      assert items[0].id in IdSet(items);
      assert IdSet(items[1..]) <= IdSet(items);
      AllResolved(items[1..], outputs);
    }
  }
}
