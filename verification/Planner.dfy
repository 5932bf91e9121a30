/** The search planner: bisect a time window until every leaf is under HH's result cap.
    Instants are whole seconds after Go's zero time, so 0 is the unset time. */
module Planner {
  import opened Sums
  import opened Sorting

  const MAX_SEARCH_RESULTS := 2000
  /** Go's largest time.Duration, in whole seconds: time.Sub saturates here. */
  const MAX_DURATION := 9223372036
  const DEFAULT_EARLIEST := 63082281600 // 2000-01-01T00:00:00Z

  datatype SearchPartition = SearchPartition(roleId: string, from: nat, to: nat, found: int, depth: nat)

  datatype Probe = ProbeFailed | Found(count: int)

  /** HH's answer to "how many vacancies has this role in this window"; (role, 0, 0) is unbounded. */
  type Searcher = (string, nat, nat) -> Probe

  datatype Options = Options(earliest: nat, now: nat, maxDepth: int, maxPartitions: int, maxRequests: int)

  datatype PlanError =
    | BadWindow
    | CatalogFailed
    | RequestCeiling
    | SearchFailed(part: SearchPartition)
    | PartitionCeiling
    | MaxDepth(part: SearchPartition)
    | Unsplittable(part: SearchPartition)
    | OneSecondInterval

  datatype Outcome = Ok | Failed(error: PlanError)

  datatype ITPlan = ITPlan(
    roles: seq<string>, partitions: seq<SearchPartition>, estimatedResults: int, probeRequests: nat)

  datatype PlanResult = Planned(plan: ITPlan) | PlanFailed(error: PlanError)

  class PlanState {
    var partitions: seq<SearchPartition>
    var estimatedResults: int
    var probeRequests: nat

    constructor ()
      ensures partitions == [] && estimatedResults == 0 && probeRequests == 1
    {
      partitions, estimatedResults, probeRequests := [], 0, 1;
    }
  }

  function CeilDiv(n: nat, d: nat): nat
    requires d > 0
  {
    (n + d - 1) / d
  }

  /** `n` halved `k` times, rounding down. */
  function Halvings(n: nat, k: nat): (h: nat)
    ensures h <= n
  {
    if k == 0 then n else Halvings(n, k - 1) / 2
  }

  function Defaulted(o: Options, clock: nat): Options {
    Options(
      if o.earliest == 0 then DEFAULT_EARLIEST else o.earliest,
      if o.now == 0 then clock else o.now,
      if o.maxDepth <= 0 then 32 else o.maxDepth,
      if o.maxPartitions <= 0 then 512 else o.maxPartitions,
      if o.maxRequests <= 0 then 1024 else o.maxRequests)
  }

  /** The defaults: from 2000-01-01 to the clock, 32 levels, 512 partitions, 1024 requests; given positive limits are
      kept. */
  lemma PlanDefaults(clock: nat, o: Options)
    ensures Defaulted(Options(0, 0, 0, 0, 0), clock) == Options(63082281600, clock, 32, 512, 1024)
    ensures o.earliest > 0 && o.now > 0 && o.maxDepth > 0 && o.maxPartitions > 0 && o.maxRequests > 0 ==> Defaulted(o, clock) == o
  {
  }

  predicate Usable(o: Options) {
    0 < o.earliest < o.now && o.maxDepth > 0 && o.maxPartitions > 0 && o.maxRequests > 0
  }

  /** Leaves that tile [lo, hi] by the second, all of one role, all answered and under the cap. */
  predicate Tiles(leaves: seq<SearchPartition>, role: string, lo: nat, hi: nat, search: Searcher) {
    && leaves != []
    && leaves[0].from == lo && leaves[|leaves| - 1].to == hi
    && (forall i :: 0 <= i < |leaves| ==> Leaf(leaves[i], role, search) && 0 < leaves[i].from <= leaves[i].to)
    && (forall i :: 0 <= i < |leaves| - 1 ==> leaves[i + 1].from == leaves[i].to + 1)
  }

  predicate Leaf(p: SearchPartition, role: string, search: Searcher) {
    p.roleId == role && search(role, p.from, p.to) == Found(p.found) && p.found <= 2000
  }

  /** What one role contributes: its unbounded search if that is under the cap, else a tiling of the whole window. */
  predicate RoleLeaves(leaves: seq<SearchPartition>, role: string, o: Options, search: Searcher) {
    match search(role, 0, 0)
    case ProbeFailed => false
    case Found(count) =>
      if count <= 2000 then leaves == [SearchPartition(role, 0, 0, count, 0)]
      else Tiles(leaves, role, o.earliest, o.now, search)
  }

  /** What planning `part` has to append. */
  predicate Covers(leaves: seq<SearchPartition>, part: SearchPartition, o: Options, search: Searcher) {
    if part.from == 0 then RoleLeaves(leaves, part.roleId, o, search)
    else Tiles(leaves, part.roleId, part.from, part.to, search)
  }

  /** Every probed part carries HH's answer for exactly its role and window. */
  predicate Answered(probed: seq<SearchPartition>, search: Searcher) {
    forall i :: 0 <= i < |probed| ==> search(probed[i].roleId, probed[i].from, probed[i].to) == Found(probed[i].found)
  }

  /** The probed parts that HH answered with at most 2000 results, in probing order. */
  function Under(probed: seq<SearchPartition>): seq<SearchPartition> {
    if probed == [] then []
    else Under(probed[..|probed| - 1]) + if probed[|probed| - 1].found <= 2000 then [probed[|probed| - 1]] else []
  }

  lemma {:induction false} UnderAppend(a: seq<SearchPartition>, b: seq<SearchPartition>)
    ensures Under(a + b) == Under(a) + Under(b)
    decreases |b|
  {
    if b == [] {
      assert a + b == a;
    } else {
      var n := |b| - 1;
      UnderAppend(a, b[..n]);
      assert (a + b)[..|a + b| - 1] == a + b[..n];
    }
  }

  lemma UnderOne(p: SearchPartition)
    ensures Under([p]) == if p.found <= 2000 then [p] else []
  {
    assert [p][..0] == [];
  }

  /** A depth-k interval has been halved k times, as long as time.Sub never saturates. */
  predicate Halved(part: SearchPartition, o: Options)
    requires o.earliest <= o.now
  {
    o.now - o.earliest <= MAX_DURATION ==> part.to - part.from <= Halvings(o.now - o.earliest, part.depth)
  }

  predicate Pending(part: SearchPartition, o: Options)
    requires o.earliest <= o.now
  {
    if part.from == 0 then part.to == 0 && part.depth == 0
    else part.from <= part.to && Halved(part, o)
  }

  function FoundOf(p: SearchPartition): int { p.found }

  lemma TilesJoin(a: seq<SearchPartition>, b: seq<SearchPartition>, role: string,
                  lo: nat, mid: nat, hi: nat, search: Searcher)
    requires Tiles(a, role, lo, mid, search) && Tiles(b, role, mid + 1, hi, search)
    ensures Tiles(a + b, role, lo, hi, search)
  {
    var c := a + b;
    forall i | 0 <= i < |c| - 1 ensures c[i + 1].from == c[i].to + 1 {
      if i + 1 < |a| {
        assert c[i] == a[i] && c[i + 1] == a[i + 1];
      } else if |a| <= i {
        assert c[i] == b[i - |a|] && c[i + 1] == b[i - |a| + 1];
      }
    }
  }

  lemma LeafCovers(part: SearchPartition, count: int, o: Options, search: Searcher)
    requires o.earliest <= o.now && Pending(part, o)
    requires search(part.roleId, part.from, part.to) == Found(count) && count <= MAX_SEARCH_RESULTS
    ensures Covers([part.(found := count)], part, o, search)
    ensures Sum([part.(found := count)], FoundOf) == count
  {
  }

  /** The leaves of the two halves cover the parent. */
  lemma HalvesCover(a: seq<SearchPartition>, b: seq<SearchPartition>, left: SearchPartition,
                    right: SearchPartition, part: SearchPartition, o: Options, search: Searcher)
    requires 0 < o.earliest && OverCap(part, search) && (part.from == 0 ==> part.to == 0)
    requires left.roleId == right.roleId == part.roleId
    requires left.from > 0 && right.from == left.to + 1
    requires (if part.from == 0 then (o.earliest, o.now) else (part.from, part.to)) == (left.from, right.to)
    requires Covers(a, left, o, search) && Covers(b, right, o, search)
    ensures Covers(a + b, part, o, search)
    ensures Sum(a + b, FoundOf) == Sum(a, FoundOf) + Sum(b, FoundOf)
  {
    TilesJoin(a, b, part.roleId, left.from, left.to, right.to, search);
    SumAppend(a, b, FoundOf);
  }

  /** Every second of the window lies in exactly one leaf of a tiling. */
  lemma {:induction false} TilesCoverOnce(leaves: seq<SearchPartition>, role: string,
                                          lo: nat, hi: nat, search: Searcher, t: nat)
    requires Tiles(leaves, role, lo, hi, search) && lo <= t <= hi
    ensures exists i :: 0 <= i < |leaves| && leaves[i].from <= t <= leaves[i].to
    ensures forall i, j | 0 <= i < |leaves| && 0 <= j < |leaves| ::
              leaves[i].from <= t <= leaves[i].to && leaves[j].from <= t <= leaves[j].to ==> i == j
    decreases |leaves|
  {
    if |leaves| == 1 {
      assert leaves[0].from <= t <= leaves[0].to;
    } else {
      var rest := leaves[1..];
      assert rest[0] == leaves[1] && leaves[1].from == leaves[0].to + 1;
      TilesOrdered(rest, role, leaves[1].from, hi, search);
      assert forall i :: 0 < i < |leaves| ==> leaves[i] == rest[i - 1];
      if t <= leaves[0].to {
        assert leaves[0].from <= t;
        forall j | 0 < j < |leaves| ensures t < leaves[j].from {
          assert leaves[j] == rest[j - 1];
        }
      } else {
        TilesCoverOnce(rest, role, leaves[1].from, hi, search, t);
        var k :| 0 <= k < |rest| && rest[k].from <= t <= rest[k].to;
        assert leaves[k + 1] == rest[k];
      }
    }
  }

  lemma {:induction false} TilesOrdered(leaves: seq<SearchPartition>, role: string,
                                        lo: nat, hi: nat, search: Searcher)
    requires Tiles(leaves, role, lo, hi, search)
    ensures forall i, j :: 0 <= i < j < |leaves| ==> leaves[i].from < leaves[j].from
    ensures forall i :: 0 <= i < |leaves| ==> lo <= leaves[i].from
    decreases |leaves|
  {
    if |leaves| > 1 {
      assert leaves[1..][0] == leaves[1];
      TilesOrdered(leaves[1..], role, leaves[1].from, hi, search);
      forall j | 1 <= j < |leaves| ensures leaves[0].from < leaves[j].from {
        assert leaves[j] == leaves[1..][j - 1];
      }
      forall i, j | 1 <= i < j < |leaves| ensures leaves[i].from < leaves[j].from {
        assert leaves[i] == leaves[1..][i - 1] && leaves[j] == leaves[1..][j - 1];
      }
    }
  }

  /** The midpoint the code picks: half the (saturating) difference, truncated to the second. */
  function Midpoint(from: nat, to: nat): nat
    requires from <= to
  {
    from + (if to - from <= MAX_DURATION then to - from else MAX_DURATION) / 2
  }

  /** Halving a depth-k interval keeps the bound one level down. */
  lemma HalvedChildren(role: string, from: nat, to: nat, k: nat, o: Options)
    requires o.earliest <= o.now && from < to
    requires o.now - o.earliest <= MAX_DURATION ==> to - from <= Halvings(o.now - o.earliest, k)
    ensures var mid := Midpoint(from, to);
            && Halved(SearchPartition(role, from, mid, 0, k + 1), o)
            && Halved(SearchPartition(role, mid + 1, to, 0, k + 1), o)
  {
    assert Halvings(o.now - o.earliest, k + 1) == Halvings(o.now - o.earliest, k) / 2;
  }

  lemma ScaleLe(a: int, b: int, p: nat)
    requires a <= b
    ensures a * p <= b * p
  {
  }

  lemma {:induction false} HalvingsScaled(n: nat, k: nat)
    ensures Halvings(n, k) * Pow2(k) <= n
  {
    if k > 0 {
      var h, p := Halvings(n, k - 1), Pow2(k - 1);
      HalvingsScaled(n, k - 1);
      ScaleLe(2 * (h / 2), h, p);
      assert (h / 2) * (2 * p) == (2 * (h / 2)) * p;
    }
  }

  lemma DivAtLeast(x: nat, d: nat, q: nat)
    requires d > 0 && q * d <= x
    ensures q <= x / d
  {
    assert x < (x / d + 1) * d;
    if x / d < q {
      ScaleLe(x / d + 1, q, d);
    }
  }

  /** In seconds: a depth-k interval holds at most ceil(N / 2^k) of the window's N seconds,
      so it is one second once 2^k reaches N. */
  lemma HalvedSeconds(part: SearchPartition, o: Options)
    requires o.earliest <= o.now && part.from <= part.to
    requires Halved(part, o) && o.now - o.earliest <= MAX_DURATION
    ensures part.to - part.from + 1 <= CeilDiv(o.now - o.earliest + 1, Pow2(part.depth))
    ensures o.now - o.earliest + 1 <= Pow2(part.depth) ==> part.from == part.to
  {
    var p, n, w := Pow2(part.depth), o.now - o.earliest, part.to - part.from;
    HalvingsScaled(n, part.depth);
    ScaleLe(w, Halvings(n, part.depth), p);
    assert (w + 1) * p == w * p + p <= (n + 1) + p - 1;
    DivAtLeast((n + 1) + p - 1, p, w + 1);
    if w >= 1 {
      ScaleLe(1, w, p);
    }
  }

  /** Every failure names its cause; the one-second guard of the code is never one of them. */
  predicate Justified(e: PlanError, o: Options, search: Searcher, probes: nat, kept: nat)
    requires o.earliest <= o.now
  {
    match e
    case RequestCeiling => probes == o.maxRequests
    case PartitionCeiling => kept == o.maxPartitions
    case SearchFailed(part) => search(part.roleId, part.from, part.to) == ProbeFailed
    case MaxDepth(part) =>
      && OverCap(part, search) && part.depth == o.maxDepth
      && 0 < part.from <= part.to && Halved(part, o)
    case Unsplittable(part) => OverCap(part, search) && 0 < part.from == part.to
    case BadWindow => false
    case CatalogFailed => false
    case OneSecondInterval => false
  }

  predicate OverCap(part: SearchPartition, search: Searcher) {
    search(part.roleId, part.from, part.to) == Found(part.found) && part.found > MAX_SEARCH_RESULTS
  }

  /** One step of the recursion, for a root (from == 0) or an interval of it. */
  method PlanPartition(o: Options, search: Searcher, plan: PlanState, part: SearchPartition)
    returns (outcome: Outcome, ghost leaves: seq<SearchPartition>, ghost probed: seq<SearchPartition>)
    requires Usable(o) && Pending(part, o) && part.depth <= o.maxDepth
    requires plan.probeRequests <= o.maxRequests && |plan.partitions| <= o.maxPartitions
    modifies plan
    ensures plan.probeRequests <= o.maxRequests && |plan.partitions| <= o.maxPartitions
    ensures outcome.Ok? ==>
              && plan.partitions == old(plan.partitions) + leaves
              && Covers(leaves, part, o, search)
              && plan.probeRequests == old(plan.probeRequests) + 2 * |leaves| - 1
              && plan.estimatedResults == old(plan.estimatedResults) + Sum(leaves, FoundOf)
              && |probed| == plan.probeRequests - old(plan.probeRequests)
              && Answered(probed, search) && leaves == Under(probed)
    ensures outcome.Failed? ==> Justified(outcome.error, o, search, plan.probeRequests, |plan.partitions|)
    decreases o.maxDepth - part.depth
  {
    hide Covers, Tiles, RoleLeaves, Under, Answered, Sum;
    leaves, probed := [], [];
    if plan.probeRequests >= o.maxRequests {
      return Failed(RequestCeiling), leaves, probed;
    }
    var page := search(part.roleId, part.from, part.to);
    plan.probeRequests := plan.probeRequests + 1;
    if page.ProbeFailed? {
      return Failed(SearchFailed(part)), leaves, probed;
    }
    ghost var answered := part.(found := page.count);
    OneProbed(answered, search);
    if page.count <= MAX_SEARCH_RESULTS {
      if |plan.partitions| >= o.maxPartitions {
        return Failed(PartitionCeiling), leaves, probed;
      }
      var leaf := part.(found := page.count);
      LeafCovers(part, page.count, o, search);
      plan.partitions := plan.partitions + [leaf];
      plan.estimatedResults := plan.estimatedResults + page.count;
      return Ok, [leaf], [leaf];
    }
    if part.depth >= o.maxDepth {
      return Failed(MaxDepth(part.(found := page.count))), leaves, probed;
    }
    var from, to := part.from, part.to;
    if from == 0 {
      from, to := o.earliest, o.now;
    }
    if from >= to {
      return Failed(Unsplittable(part.(found := page.count))), leaves, probed;
    }
    var mid := Midpoint(from, to);
    if mid + 1 > to {
      return Failed(OneSecondInterval), leaves, probed;
    }
    HalvedChildren(part.roleId, from, to, part.depth, o);
    var left := SearchPartition(part.roleId, from, mid, 0, part.depth + 1);
    var right := SearchPartition(part.roleId, mid + 1, to, 0, part.depth + 1);
    ghost var a, b, pa, pb;
    outcome, a, pa := PlanPartition(o, search, plan, left);
    if outcome.Failed? {
      return;
    }
    outcome, b, pb := PlanPartition(o, search, plan, right);
    if outcome.Ok? {
      leaves, probed := a + b, [answered] + pa + pb;
      HalvesCover(a, b, left, right, answered, o, search);
      CoversSame(leaves, answered, part, o, search);
      SplitProbed(answered, pa, pb, search);
    }
  }

  lemma OneProbed(p: SearchPartition, search: Searcher)
    requires search(p.roleId, p.from, p.to) == Found(p.found)
    ensures Answered([p], search) && Under([p]) == if p.found <= 2000 then [p] else []
  {
    UnderOne(p);
  }

  lemma CoversSame(leaves: seq<SearchPartition>, a: SearchPartition, b: SearchPartition, o: Options, search: Searcher)
    requires Covers(leaves, a, o, search) && a.roleId == b.roleId && a.from == b.from && a.to == b.to
    ensures Covers(leaves, b, o, search)
  {
  }

  lemma SplitProbed(part: SearchPartition, a: seq<SearchPartition>, b: seq<SearchPartition>, search: Searcher)
    requires OverCap(part, search) && Answered(a, search) && Answered(b, search)
    ensures Answered([part] + a + b, search) && Under([part] + a + b) == Under(a) + Under(b)
  {
    UnderOne(part);
    UnderAppend([part], a);
    UnderAppend([part] + a, b);
    hide Under;
    assert [] + Under(a) + Under(b) == Under(a) + Under(b);
  }

  predicate RoleLess(a: string, b: string) { StrLess(a, b) }

  /** The comparator of the final sort. */
  predicate PartLess(a: SearchPartition, b: SearchPartition) {
    if a.roleId != b.roleId then StrLess(a.roleId, b.roleId) else a.from < b.from
  }

  lemma RoleLessStrictWeak()
    ensures StrictWeak(RoleLess)
  {
    forall x, y | RoleLess(x, y) ensures !RoleLess(y, x) {
      StrLessAsymmetric(x, y);
    }
    forall x, y, z | !RoleLess(x, y) && !RoleLess(y, z) ensures !RoleLess(x, z) {
      NotLessTransitive(x, y, z);
    }
  }

  lemma NotLessTransitive(x: string, y: string, z: string)
    requires !StrLess(x, y) && !StrLess(y, z)
    ensures !StrLess(x, z)
  {
    StrLessTotal(x, y);
    StrLessTotal(y, z);
    if StrLess(x, z) {
      StrLessAsymmetric(x, z);
      if y != x && y != z {
        StrLessTransitive(z, y, x);
      }
    }
  }

  lemma PartLessStrictWeak()
    ensures StrictWeak(PartLess)
  {
    forall x, y | PartLess(x, y) ensures !PartLess(y, x) {
      if x.roleId != y.roleId {
        StrLessAsymmetric(x.roleId, y.roleId);
      }
    }
    forall x, y, z | !PartLess(x, y) && !PartLess(y, z) ensures !PartLess(x, z) {
      StrLessTotal(x.roleId, y.roleId);
      StrLessTotal(y.roleId, z.roleId);
      StrLessTotal(x.roleId, z.roleId);
      if x.roleId != z.roleId && StrLess(x.roleId, z.roleId) {
        StrLessAsymmetric(x.roleId, z.roleId);
        if x.roleId != y.roleId && y.roleId != z.roleId {
          NotLessTransitive(x.roleId, y.roleId, z.roleId);
        }
      }
    }
  }

  function Flatten(groups: seq<seq<SearchPartition>>): seq<SearchPartition> {
    if groups == [] then [] else Flatten(groups[..|groups| - 1]) + groups[|groups| - 1]
  }

  lemma SortedDistinctIsStrict(s: seq<string>)
    requires Sorted(s, RoleLess) && Distinct(s)
    ensures StrictlySorted(s, RoleLess)
  {
    forall i, j | 0 <= i < j < |s| ensures RoleLess(s[i], s[j]) {
      StrLessTotal(s[i], s[j]);
    }
  }

  /** Appending the leaves of a later role keeps the whole list strictly sorted. */
  lemma AppendRoleSorted(done: seq<SearchPartition>, leaves: seq<SearchPartition>, roles: seq<string>,
                         i: nat, o: Options, search: Searcher)
    requires i < |roles| && StrictlySorted(roles, RoleLess)
    requires StrictlySorted(done, PartLess)
    requires forall p :: p in done ==> p.roleId in roles[..i]
    requires RoleLeaves(leaves, roles[i], o, search)
    ensures StrictlySorted(done + leaves, PartLess)
    ensures forall p :: p in done + leaves ==> p.roleId in roles[..i + 1]
  {
    var all := done + leaves;
    if Tiles(leaves, roles[i], o.earliest, o.now, search) {
      TilesOrdered(leaves, roles[i], o.earliest, o.now, search);
    }
    forall p | p in all ensures p.roleId in roles[..i + 1] {
      if p in done {
        assert p.roleId in roles[..i];
      } else {
        assert p in leaves && p.roleId == roles[i] == roles[..i + 1][i];
      }
    }
    forall a, b | 0 <= a < b < |all| ensures PartLess(all[a], all[b]) {
      if b < |done| {
        assert all[a] == done[a] && all[b] == done[b];
      } else if a < |done| {
        assert all[a] in done && all[b] in leaves;
        var k :| 0 <= k < i && roles[k] == all[a].roleId;
        assert RoleLess(roles[k], roles[i]);
        StrLessAsymmetric(roles[k], roles[i]);
      } else {
        assert all[a] == leaves[a - |done|] && all[b] == leaves[b - |done|];
      }
    }
  }

  lemma PlanStart()
    ensures StrictlySorted([], PartLess) && Sum([], FoundOf) == 0 && Under([]) == []
    ensures forall search :: Answered([], search)
  {
  }

  lemma MoreProbed(a: seq<SearchPartition>, b: seq<SearchPartition>, search: Searcher)
    requires Answered(a, search) && Answered(b, search)
    ensures Answered(a + b, search) && Under(a + b) == Under(a) + Under(b)
  {
    UnderAppend(a, b);
  }

  /** PlanIT. `catalog` is the filtered official role list, or nothing when fetching it failed;
      `byRole` names the depth-first leaves of each role, `probes` and `kept` what a failed
      plan had spent and collected. */
  method PlanIT(options: Options, clock: nat, catalog: seq<string>, catalogOk: bool, search: Searcher)
    returns (result: PlanResult, ghost byRole: seq<seq<SearchPartition>>, ghost probes: nat, ghost kept: nat,
             ghost probed: seq<SearchPartition>)
    requires Distinct(catalog)
    ensures result.Planned? ==>
              var o, plan := Defaulted(options, clock), result.plan;
              && Usable(o)
              && multiset(plan.roles) == multiset(catalog) && StrictlySorted(plan.roles, RoleLess)
              && |byRole| == |plan.roles|
              && (forall i :: 0 <= i < |byRole| ==> RoleLeaves(byRole[i], plan.roles[i], o, search))
              && plan.partitions == Flatten(byRole)
              && StrictlySorted(plan.partitions, PartLess)
              && plan.probeRequests == 1 + 2 * |plan.partitions| - |plan.roles|
              && plan.probeRequests <= o.maxRequests
              && |plan.partitions| <= o.maxPartitions
              && plan.estimatedResults == Sum(plan.partitions, FoundOf)
              && |probed| == plan.probeRequests - 1 && Answered(probed, search)
              && plan.partitions == Under(probed)
    ensures result.PlanFailed? ==>
              var o := Defaulted(options, clock);
              match result.error
              case BadWindow => o.earliest >= o.now
              case CatalogFailed => !catalogOk
              case _ => o.earliest < o.now && Justified(result.error, o, search, probes, kept)
    ensures result.PlanFailed? && result.error.MaxDepth? ==>
              var o, part := Defaulted(options, clock), result.error.part;
              o.now - o.earliest <= MAX_DURATION ==>
                && part.to - part.from + 1 <= CeilDiv(o.now - o.earliest + 1, Pow2(o.maxDepth))
                && (o.now - o.earliest + 1 <= Pow2(o.maxDepth) ==> part.from == part.to)
  {
    hide Tiles, RoleLeaves, Leaf, Halved, Under, Answered, CeilDiv, Pow2, Sum, StrictlySorted, PartLess, RoleLess;
    PlanStart();
    probes, kept, probed := 1, 0, [];
    byRole := [];
    var o := Defaulted(options, clock);
    if o.earliest >= o.now {
      return PlanFailed(BadWindow), byRole, probes, kept, probed;
    }
    if !catalogOk {
      return PlanFailed(CatalogFailed), byRole, probes, kept, probed;
    }
    RoleLessStrictWeak();
    var roles := SortSlice(catalog, RoleLess);
    DistinctPermutation(catalog, roles);
    SortedDistinctIsStrict(roles);
    var plan := new PlanState();
    for i := 0 to |roles|
      invariant |byRole| == i
      invariant forall k :: 0 <= k < i ==> RoleLeaves(byRole[k], roles[k], o, search)
      invariant plan.partitions == Flatten(byRole)
      invariant StrictlySorted(plan.partitions, PartLess)
      invariant forall p :: p in plan.partitions ==> p.roleId in roles[..i]
      invariant plan.probeRequests == 1 + 2 * |plan.partitions| - i <= o.maxRequests
      invariant |plan.partitions| <= o.maxPartitions
      invariant plan.estimatedResults == Sum(plan.partitions, FoundOf)
      invariant |probed| == plan.probeRequests - 1 && Answered(probed, search) && plan.partitions == Under(probed)
    {
      ghost var done := plan.partitions;
      var outcome;
      ghost var leaves, asked;
      outcome, leaves, asked := PlanPartition(o, search, plan, SearchPartition(roles[i], 0, 0, 0, 0));
      if outcome.Failed? {
        if outcome.error.MaxDepth? && o.now - o.earliest <= MAX_DURATION {
          HalvedSeconds(outcome.error.part, o);
        }
        return PlanFailed(outcome.error), byRole, plan.probeRequests, |plan.partitions|, probed;
      }
      AppendRoleSorted(done, leaves, roles, i, o, search);
      SumAppend(done, leaves, FoundOf);
      MoreProbed(probed, asked, search);
      probed := probed + asked;
      byRole := byRole + [leaves];
      assert byRole[..|byRole| - 1] == byRole[..i];
    }
    PartLessStrictWeak();
    var sorted := SortSlice(plan.partitions, PartLess);
    SortedPermutationUnique(plan.partitions, sorted, PartLess);
    result := Planned(ITPlan(roles, sorted, plan.estimatedResults, plan.probeRequests));
  }
}
