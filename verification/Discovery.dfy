/** RunDailyDiscovery: plan, resume or start the day's cycle, fetch and save pages until every
    partition is complete, then complete the cycle and reconcile vacancy statuses. */
module Discovery {
  import opened Sums
  import opened Planner
  import opened DiscoveryCycle
  import opened DiscoveryProtocol
  import opened DiscoveryRequests
  import opened MemoryStore

  const MAX_PER_PAGE := 100
  const DAY := 86400
  const METHOD_VERSION := "vacancy_demand_v2"

  /** A search hit: unreadable, outside the collected roles, or an observation. */
  datatype Item = BadItem | OutOfScope | InScope(externalId: string)

  datatype Answer = SearchError | Page(pages: int, items: seq<Item>)

  /** HH's answer to the n-th page request of this run. */
  type Source = nat -> Answer

  /** The SHA-256 partition key of (role, from, to), assumed collision-free. */
  type KeyOf = (string, nat, nat) -> string

  datatype DiscoveryOptions = DiscoveryOptions(
    perPage: int, earliest: nat, cutoffAt: nat, cycleDate: int, observedAt: nat,
    maxDepth: int, maxPartitions: int, maxRequests: int)

  datatype DiscoveryOutcome =
    | Completed
    | BadPerPage
    | PlanError(error: Planner.PlanError)
    | SearchFailure
    | PageCountChanged(part: Partition)
    | ItemError
    | Incomplete
    | NotReconciled

  datatype DiscoveryResult = DiscoveryResult(
    plannedPages: int, committedPages: nat, observationRows: nat, passes: nat, reconciliation: Reconciliation)

  const NoResult := DiscoveryResult(0, 0, 0, 0, Reconciliation(0, 0, 0))

  function DayUTC(t: int): int { t - t % DAY }

  /** The pages of that size that hold HH's 2000 results. */
  function PageCap(perPage: int): (cap: nat)
    requires 1 <= perPage <= MAX_PER_PAGE
    ensures (cap - 1) * perPage < 2000 <= cap * perPage
  {
    DividedUp(MAX_SEARCH_RESULTS, perPage);
    (MAX_SEARCH_RESULTS + perPage - 1) / perPage
  }

  /** The pages of that size that hold `found` results. */
  function PagesFor(found: int, perPage: int): (pages: int)
    requires perPage >= 1
    ensures if found <= 0 then pages == 0 else (pages - 1) * perPage < found <= pages * perPage
  {
    DividedUp(found, perPage);
    if found > 0 then (found + perPage - 1) / perPage else 0
  }

  function PlannedRow(p: SearchPartition, perPage: int, cutoff: nat, keyOf: KeyOf): Partition
    requires perPage >= 1
  {
    var pages := PagesFor(p.found, perPage);
    Partition(keyOf(p.roleId, p.from, p.to), p.roleId, p.from, if p.to == 0 then cutoff else p.to,
              pages, 0, if pages == 0 then Complete else Pending)
  }

  ghost predicate CollisionFree(keyOf: KeyOf) {
    forall r, f, t, r', f', t' :: keyOf(r, f, t) == keyOf(r', f', t') ==> (r, f, t) == (r', f', t')
  }

  /** The rows the driver hands to the store are a fresh plan: distinct keys, nothing fetched,
      empty partitions already complete, page counts within the source's cap. */
  predicate RowsPlanned(rows: seq<Partition>, perPage: int)
    requires 1 <= perPage <= MAX_PER_PAGE
  {
    FreshPlan(rows) && forall i :: 0 <= i < |rows| ==> 0 <= rows[i].expectedPages <= PageCap(perPage)
  }

  /** A planned row searches exactly its leaf's role and window, and has just the pages its results need. */
  predicate RowFor(leaf: SearchPartition, row: Partition, perPage: int, cutoff: nat, keyOf: KeyOf) {
    && row.key == keyOf(leaf.roleId, leaf.from, leaf.to) && row.roleId == leaf.roleId
    && row.dateFrom == leaf.from && row.dateTo == (if leaf.to == 0 then cutoff else leaf.to)
    && row.nextPage == 0
    && if leaf.found <= 0 then row.expectedPages == 0 && row.status == Complete
       else (row.expectedPages - 1) * perPage < leaf.found <= row.expectedPages * perPage && row.status == Pending
  }

  predicate RowsFor(leaves: seq<SearchPartition>, rows: seq<Partition>, perPage: int, cutoff: nat, keyOf: KeyOf) {
    |rows| == |leaves| && forall i :: 0 <= i < |rows| ==> RowFor(leaves[i], rows[i], perPage, cutoff, keyOf)
  }

  lemma RowBounds(leaf: SearchPartition, row: Partition, perPage: int, cutoff: nat, keyOf: KeyOf)
    requires 1 <= perPage <= MAX_PER_PAGE && RowFor(leaf, row, perPage, cutoff, keyOf) && leaf.found <= 2000
    ensures Fresh(row) && 0 <= row.expectedPages <= PageCap(perPage)
  {
    var e, cap := row.expectedPages, PageCap(perPage);
    if leaf.found > 0 {
      if e > cap {
        ScaleLe(cap, e - 1, perPage);
      }
      if e <= 0 {
        ScaleLe(e, 0, perPage);
      }
    }
  }

  lemma DivMonotone(a: int, b: int, d: int)
    requires 0 <= a <= b && d > 0
    ensures a / d <= b / d
    ensures d <= b ==> b / d >= 1
  {
    var q := b / d;
    if q < a / d {
      ScaleLe(q + 1, a / d, d);
    }
  }

  lemma PlanRows(parts: seq<SearchPartition>, perPage: int, cutoff: nat, keyOf: KeyOf, rows: seq<Partition>)
    requires 1 <= perPage <= MAX_PER_PAGE && CollisionFree(keyOf)
    requires Sorting.StrictlySorted(parts, PartLess)
    requires forall p :: p in parts ==> p.found <= MAX_SEARCH_RESULTS
    requires RowsFor(parts, rows, perPage, cutoff, keyOf)
    ensures RowsPlanned(rows, perPage)
  {
    forall i, j | 0 <= i < j < |rows| ensures rows[i].key != rows[j].key {
      assert PartLess(parts[i], parts[j]);
      if parts[i].roleId != parts[j].roleId {
      } else {
        assert parts[i].from != parts[j].from;
      }
    }
    forall i | 0 <= i < |rows| ensures Fresh(rows[i]) && 0 <= rows[i].expectedPages <= PageCap(perPage) {
      assert parts[i] in parts;
      RowBounds(parts[i], rows[i], perPage, cutoff, keyOf);
    }
  }

  lemma {:induction false} LeavesUnderCap(groups: seq<seq<SearchPartition>>, roles: seq<string>, o: Options, search: Searcher)
    requires |groups| == |roles|
    requires forall i :: 0 <= i < |groups| ==> RoleLeaves(groups[i], roles[i], o, search)
    ensures forall p :: p in Flatten(groups) ==> p.found <= MAX_SEARCH_RESULTS
  {
    if groups != [] {
      var n := |groups| - 1;
      LeavesUnderCap(groups[..n], roles[..n], o, search);
    }
  }

  lemma PlannedRowFor(leaf: SearchPartition, perPage: int, cutoff: nat, keyOf: KeyOf)
    requires perPage >= 1
    ensures RowFor(leaf, PlannedRow(leaf, perPage, cutoff, keyOf), perPage, cutoff, keyOf)
  {
    var e := PagesFor(leaf.found, perPage);
    if leaf.found > 0 && e <= 0 {
      ScaleLe(e, 0, perPage);
    }
  }

  /** Turning the plan into rows, with the totals the cycle starts from. */
  method BuildRows(parts: seq<SearchPartition>, perPage: int, cutoff: nat, keyOf: KeyOf)
    returns (rows: seq<Partition>, expected: int, complete: int)
    requires perPage >= 1
    ensures RowsFor(parts, rows, perPage, cutoff, keyOf)
    ensures expected == Sum(rows, ExpectedOf) && complete == Sum(rows, CompleteOf)
  {
    rows, expected, complete := [], 0, 0;
    for i := 0 to |parts|
      invariant |rows| == i
      invariant forall k :: 0 <= k < i ==> RowFor(parts[k], rows[k], perPage, cutoff, keyOf)
      invariant expected == Sum(rows, ExpectedOf) && complete == Sum(rows, CompleteOf)
    {
      var row := PlannedRow(parts[i], perPage, cutoff, keyOf);
      PlannedRowFor(parts[i], perPage, cutoff, keyOf);
      if row.status == Complete {
        complete := complete + 1;
      }
      SumAppend(rows, [row], ExpectedOf);
      SumAppend(rows, [row], CompleteOf);
      rows := rows + [row];
      expected := expected + row.expectedPages;
    }
  }

  /** observationFromSearch over a page: in-scope hits in order, or nothing if a hit is unreadable. */
  method Observations(items: seq<Item>, at: nat) returns (page: seq<Observation>, ok: bool)
    ensures ok <==> BadItem !in items
    ensures ok ==> |page| <= |items| && forall e ::
              (exists o :: o in page && o.externalId == e) <==> InScope(e) in items
    ensures forall o :: o in page ==> o.observedAt == at
  {
    page := [];
    for i := 0 to |items|
      invariant |page| <= i && BadItem !in items[..i]
      invariant forall o :: o in page ==> o.observedAt == at && InScope(o.externalId) in items[..i]
      invariant forall e :: InScope(e) in items[..i] ==> Observation(e, at) in page
    {
      assert items[..i + 1] == items[..i] + [items[i]];
      if items[i].BadItem? {
        return page, false;
      }
      if items[i].InScope? {
        page := page + [Observation(items[i].externalId, at)];
      }
    }
    assert items[..|items|] == items;
    ok := true;
  }

  predicate CyclesPaged(cycles: Cycles, partitions: Partitions) {
    forall id :: id in cycles && cycles[id].scope == DailyDiscovery ==> Paged(StateIn(cycles, partitions, id))
  }

  predicate Stamped(all: MemoryStore.Observations) {
    forall k :: k in all ==> all[k].observedAt > 0
  }

  /** Everything a store written only by this program satisfies between two calls. */
  ghost predicate Sound(store: Memory)
    reads store
  {
    && store.Valid()
    && CyclesPaged(store.cycles, store.partitions)
    && Stamped(store.observations)
  }

  /** Changing one daily cycle to a consistent, bounded state keeps the whole store so. */
  lemma OneCycleChanged(c0: Cycles, p0: Partitions, c1: Cycles, p1: Partitions, id: CycleId)
    requires CyclesValid(c0, p0) && CyclesPaged(c0, p0) && id in c0
    requires c1.Keys == c0.Keys && p1.Keys <= p0.Keys + {id}
    requires forall k :: k in c1 && k != id ==> c1[k] == c0[k]
    requires forall k :: k != id ==> (k in p0 <==> k in p1) && (k in p1 ==> p1[k] == p0[k])
    requires Consistent(StateIn(c1, p1, id)) && Paged(StateIn(c1, p1, id))
    ensures CyclesValid(c1, p1) && CyclesPaged(c1, p1)
  {
    hide Consistent, Paged;
    assert |c1.Keys| == |c0.Keys|;
    assert |c1| == |c1.Keys| && |c0| == |c0.Keys|;
    forall k | k in c1 && c1[k].scope == DailyDiscovery
      ensures Consistent(StateIn(c1, p1, k)) && Paged(StateIn(c1, p1, k))
    {
      if k != id {
        assert StateIn(c1, p1, k) == StateIn(c0, p0, k);
      }
    }
  }

  ghost predicate DailyCycle(store: Memory, id: CycleId)
    reads store
  {
    id in store.cycles && store.cycles[id].scope == DailyDiscovery
  }

  /** Vacancy statuses of a finished cycle: hh rows follow the saved pages, other sources are untouched. */
  ghost predicate StatusesFollow(before: Vacancies, after: Vacancies, log: seq<SavedPage>, id: CycleId) {
    && after.Keys == before.Keys
    && (forall k :: k in after && before[k].source == "hh" ==>
          (after[k].isActive <==> OnSavedPage(log, id, after[k].externalId)))
    && (forall k :: k in after && before[k].source != "hh" ==> after[k] == before[k])
  }

  lemma SoundCycle(store: Memory, id: CycleId)
    requires Sound(store) && DailyCycle(store, id)
    ensures Consistent(store.State(id)) && Paged(store.State(id))
  {
  }

  lemma SeenIsSaved(store: Memory, id: CycleId, externalId: string)
    requires Sound(store)
    ensures externalId in Seen(store.observations, id) <==> OnSavedPage(store.pageLog, id, externalId)
  {
    LoggedKeysMeaning(store.pageLog, id, externalId);
    if (id, externalId) in store.observations {
      assert store.observations[(id, externalId)].observedAt > 0;
    }
  }

  /** The driver holds row `i` of the store: open, with the page it is about to fetch or save. */
  ghost predicate Holds(store: Memory, id: CycleId, i: nat, part: Partition)
    reads store
  {
    && id in store.cycles && store.cycles[id].scope == DailyDiscovery
    && i < |store.PartsOf(id)|
    && store.PartsOf(id)[i].key == part.key && store.PartsOf(id)[i].nextPage == part.nextPage
    && store.PartsOf(id)[i].expectedPages == part.expectedPages && store.PartsOf(id)[i].status != Complete
  }

  lemma AgreedSound(cs: CycleState, i: nat, reported: int)
    requires i < |cs.parts| && Consistent(cs) && Paged(cs)
    requires cs.parts[i].status != Complete && cs.parts[i].nextPage == 0
    ensures var after := SetExpected(cs, cs.parts[i].key, reported);
            Consistent(after) && Paged(after) && after.cycle.scope == cs.cycle.scope
  {
    SetExpectedKeepsIff(cs, i, reported);
    SetExpectedOne(cs, i, reported);
  }

  /** SetDiscoveryExpectedPages as the driver calls it: the store stays sound. */
  method AgreeOnPages(store: Memory, id: CycleId, ghost i: nat, part: Partition, reported: int)
    requires Sound(store) && Holds(store, id, i, part) && part.nextPage == 0
    modifies store`cycles, store`partitions
    ensures Sound(store) && DailyCycle(store, id)
    ensures store.State(id) == SetExpected(old(store.State(id)), part.key, reported)
  {
    ghost var c0, p0 := store.cycles, store.partitions;
    AgreedSound(store.State(id), i, reported);
    hide Consistent, Paged, CyclesValid, CyclesPaged, SetExpected;
    assert id in store.partitions ==> id in store.cycles;
    store.SetDiscoveryExpectedPages(id, part.key, reported);
    OneCycleChanged(c0, p0, store.cycles, store.partitions, id);
  }

  lemma SaveSound(cs: CycleState, i: nat, page: int)
    requires i < |cs.parts| && Consistent(cs) && Paged(cs)
    requires cs.parts[i].status != Complete && cs.parts[i].nextPage == page
    ensures var after := Save(cs, cs.parts[i].key, page);
            Consistent(after) && Paged(after) && after.cycle.scope == cs.cycle.scope
    ensures !Stale(cs, cs.parts[i].key, page)
  {
    SaveKeepsIff(cs, i, page);
    IndexOfUnique(cs.parts, i);
  }

  /** SaveDiscoveryPage as the driver calls it: the store stays sound and the page is logged. */
  method CommitPage(store: Memory, id: CycleId, ghost i: nat, part: Partition, page: seq<Observation>)
    requires Sound(store) && Holds(store, id, i, part)
    requires forall o :: o in page ==> o.observedAt > 0
    modifies store`cycles, store`partitions, store`observations, store`pageLog
    ensures Sound(store) && DailyCycle(store, id)
    ensures store.State(id) == Save(old(store.State(id)), part.key, part.nextPage)
    ensures store.pageLog == old(store.pageLog) + [SavedPage(id, page)]
  {
    ghost var c0, p0, observed, log := store.cycles, store.partitions, store.observations, store.pageLog;
    SaveSound(store.State(id), i, part.nextPage);
    hide Consistent, Paged, CyclesValid, CyclesPaged, ObservationsValid, Save, Stale;
    store.SaveDiscoveryPage(id, part, page);
    SavedPageObserved(observed, log, id, page);
    ObserveKeys(observed, id, page);
    OneCycleChanged(c0, p0, store.cycles, store.partitions, id);
  }

  /** The store calls of one error-free pass, after HH's page count was accepted. */
  method CommitPass(store: Memory, id: CycleId, ghost i: nat, part: Partition, reported: int, page: seq<Observation>)
    requires Sound(store) && Holds(store, id, i, part)
    requires reported != 0 && (reported == part.expectedPages || part.nextPage == 0)
    requires forall o :: o in page ==> o.observedAt > 0
    modifies store`cycles, store`partitions, store`observations, store`pageLog
    ensures Sound(store) && DailyCycle(store, id)
    ensures store.State(id) == Pass(old(store.State(id)), i, reported)
    ensures store.pageLog == old(store.pageLog) + [SavedPage(id, page)]
  {
    ghost var cs := store.State(id);
    AgreedRow(cs, i, reported);
    FreshSave(cs, i, reported);
    hide Consistent, Paged, CyclesValid, CyclesPaged, ObservationsValid, Pass, SetExpected, Save, Stamped;
    var agreed := part;
    if reported != part.expectedPages {
      AgreeOnPages(store, id, i, part, reported);
      agreed := part.(expectedPages := reported);
    }
    CommitPage(store, id, i, agreed, page);
  }

  /** After agreeing on the page count, saving the open row's next page is not stale. */
  lemma FreshSave(cs: CycleState, i: nat, reported: int)
    requires i < |cs.parts| && Consistent(cs) && cs.parts[i].status != Complete
    requires reported != 0 && (reported == cs.parts[i].expectedPages || cs.parts[i].nextPage == 0)
    ensures var part := cs.parts[i];
            var agreed := if reported == part.expectedPages then cs else SetExpected(cs, part.key, reported);
            && !Stale(agreed, part.key, part.nextPage)
            && Save(agreed, part.key, part.nextPage) == Pass(cs, i, reported)
  {
    AgreedRow(cs, i, reported);
    var part := cs.parts[i];
    var agreed := if reported == part.expectedPages then cs else SetExpected(cs, part.key, reported);
    assert agreed.parts[i].key == part.key;
    IndexOfUnique(agreed.parts, i);
  }

  function Reported(pages: int, cap: nat): int {
    if pages < cap then pages else cap
  }

  /** Answer `a` was saved as a page and holds vacancy `e` in scope. */
  predicate Delivers(a: Answer, cap: nat, e: string) {
    a.Page? && Reported(a.pages, cap) != 0 && InScope(e) in a.items
  }

  ghost predicate Delivered(source: Source, passes: nat, cap: nat, e: string) {
    exists n :: 0 <= n < passes && Delivers(source(n), cap, e)
  }

  /** The vacancies logged for `id`: those logged before, plus those the passes delivered. */
  ghost predicate LogExtends(log0: seq<SavedPage>, log: seq<SavedPage>, id: CycleId,
                             source: Source, passes: nat, cap: nat) {
    && log0 <= log
    && (forall e :: OnSavedPage(log, id, e) <==> OnSavedPage(log0, id, e) || Delivered(source, passes, cap, e))
  }

  lemma LogGrows(log0: seq<SavedPage>, log: seq<SavedPage>, id: CycleId, source: Source,
                 passes: nat, cap: nat, page: seq<Observation>)
    requires LogExtends(log0, log, id, source, passes, cap)
    requires source(passes).Page? && Reported(source(passes).pages, cap) != 0
    requires forall e :: (exists o :: o in page && o.externalId == e) <==> InScope(e) in source(passes).items
    ensures LogExtends(log0, log + [SavedPage(id, page)], id, source, passes + 1, cap)
  {
    var more := log + [SavedPage(id, page)];
    forall e ensures OnSavedPage(more, id, e) <==> OnSavedPage(log0, id, e) || Delivered(source, passes + 1, cap, e) {
      AppendedPage(log, id, page, e);
      assert Delivered(source, passes + 1, cap, e) <==>
             Delivered(source, passes, cap, e) || Delivers(source(passes), cap, e);
    }
  }

  lemma AppendedPage(log: seq<SavedPage>, id: CycleId, page: seq<Observation>, e: string)
    ensures OnSavedPage(log + [SavedPage(id, page)], id, e) <==>
            OnSavedPage(log, id, e) || exists o :: o in page && o.externalId == e
  {
    var last := SavedPage(id, page);
    var more := log + [last];
    if exists o :: o in page && o.externalId == e {
      var o :| o in page && o.externalId == e;
      assert last in more && o in last.observations;
    }
    if OnSavedPage(log, id, e) {
      var p, o :| p in log && p.cycle == id && o in p.observations && o.externalId == e;
      assert p in more;
    }
  }

  lemma LogIdle(log0: seq<SavedPage>, log: seq<SavedPage>, id: CycleId, source: Source, passes: nat, cap: nat)
    requires LogExtends(log0, log, id, source, passes, cap)
    requires source(passes).Page? && Reported(source(passes).pages, cap) == 0
    ensures LogExtends(log0, log, id, source, passes + 1, cap)
  {
    forall e ensures Delivered(source, passes + 1, cap, e) <==> Delivered(source, passes, cap, e) {
    }
  }

  datatype LoopStats = LoopStats(planned: int, committed: nat, rows: nat, passes: nat)

  /** The answer is a readable page that reports exactly the negative count `v`. */
  predicate Repeats(a: Answer, v: int) {
    v < 0 && a.Page? && a.pages == v && BadItem !in a.items
  }

  /** How many of the first `n` answers reported a negative count. */
  function Negatives(source: Source, n: nat): nat {
    if n == 0 then 0 else Negatives(source, n - 1) + if source(n - 1).Page? && source(n - 1).pages < 0 then 1 else 0
  }

  /** A row whose page count went negative; nothing but the end of the run gets the driver past it. */
  predicate HasNegative(parts: seq<Partition>) {
    exists i :: 0 <= i < |parts| && parts[i].expectedPages < 0 && parts[i].nextPage > 0
  }

  /** Nothing but the totals of the cycle row differs. */
  predicate SameCycle(a: Cycle, b: Cycle) {
    b == a.(expectedPages := b.expectedPages, completedPages := b.completedPages, completedPartitions := b.completedPartitions)
  }

  lemma PassSameCycle(cs: CycleState, i: nat, reported: int)
    requires i < |cs.parts| && Consistent(cs)
    ensures SameCycle(cs.cycle, Pass(cs, i, reported).cycle)
  {
    SetExpectedOne(cs, i, reported);
    hide SetExpected, Consistent;
  }

  /** What the pages fetched so far did to the cycle's totals, and how many passes they took. */
  predicate Accounted(before: CycleState, now: CycleState, stats: LoopStats, source: Source, cap: nat) {
    && |now.parts| == |before.parts| && SameCycle(before.cycle, now.cycle)
    && now.cycle.completedPages == before.cycle.completedPages + stats.committed
    && now.cycle.expectedPages == before.cycle.expectedPages + stats.planned
    && stats.passes + Sum(now.parts, RemainingBy(cap)) <= Sum(before.parts, RemainingBy(cap)) + Negatives(source, stats.passes)
    && (Negatives(source, stats.passes) > 0 ==> HasNegative(now.parts))
  }

  /** The pass made progress, or repeated the negative count of the row the driver is stuck on. */
  predicate Advances(from: seq<Partition>, to: seq<Partition>, cap: nat, reported: int) {
    || Sum(to, RemainingBy(cap)) < Sum(from, RemainingBy(cap))
    || (Sum(to, RemainingBy(cap)) == Sum(from, RemainingBy(cap)) && reported == OpenCount(from) == OpenCount(to) < 0)
  }

  lemma AccountPass(before: CycleState, cs: CycleState, stats: LoopStats, source: Source, cap: nat, i: nat, reported: int, rows: nat)
    requires Accounted(before, cs, stats, source, cap)
    requires i < |cs.parts| && Consistent(cs) && Paged(cs) && i == FirstOpen(cs.parts)
    requires source(stats.passes).Page? && reported == Reported(source(stats.passes).pages, cap) && cap > 0
    requires reported == cs.parts[i].expectedPages || cs.parts[i].nextPage == 0
    ensures var after := Pass(cs, i, reported);
            && Accounted(before, after,
                         LoopStats(stats.planned + reported - cs.parts[i].expectedPages,
                                   stats.committed + One(reported != 0), rows, stats.passes + 1), source, cap)
            && Advances(cs.parts, after.parts, cap, reported)
  {
    hide RemainingBy, Pass, Sum;
    PassSameCycle(cs, i, reported);
    PassConsumes(cs, i, reported, cap);
    if reported == 0 {
      PassCloses(cs, i);
    } else {
      PassSaves(cs, i, reported);
    }
    var after := Pass(cs, i, reported);
    SumUpdate(cs.parts, i, after.parts[i], ExpectedOf);
    if reported < 0 {
      assert after.parts[i].expectedPages < 0 && after.parts[i].nextPage > 0;
    } else if HasNegative(cs.parts) {
      var j :| 0 <= j < |cs.parts| && cs.parts[j].expectedPages < 0 && cs.parts[j].nextPage > 0;
      assert j != i && after.parts[j] == cs.parts[j];
    }
  }

  ghost predicate Running(store: Memory, id: CycleId, before: CycleState, log0: seq<SavedPage>,
                          source: Source, stats: LoopStats, cap: nat)
    reads store
  {
    && Sound(store) && DailyCycle(store, id)
    && Accounted(before, store.State(id), stats, source, cap)
    && LogExtends(log0, store.pageLog, id, source, stats.passes, cap)
  }

  /** The rest of a pass, once HH's page count was accepted: close the row or save the page. */
  method FinishPass(store: Memory, id: CycleId, cap: nat, at: nat, source: Source, stats0: LoopStats,
                    part: Partition, reported: int,
                    ghost i: nat, ghost before: CycleState, ghost log0: seq<SavedPage>)
    returns (ok: bool, stats: LoopStats)
    requires Running(store, id, before, log0, source, stats0, cap) && at > 0
    requires i == FirstOpen(store.PartsOf(id)) < |store.PartsOf(id)| && store.PartsOf(id)[i] == part
    requires source(stats0.passes).Page? && reported == Reported(source(stats0.passes).pages, cap)
    requires cap > 0
    requires reported == part.expectedPages || part.nextPage == 0
    modifies store`cycles, store`partitions, store`observations, store`pageLog
    ensures Running(store, id, before, log0, source, stats, cap)
    ensures ok ==> stats.passes == stats0.passes + 1 && (reported != 0 ==> BadItem !in source(stats0.passes).items)
    ensures ok ==> Advances(old(store.PartsOf(id)), store.PartsOf(id), cap, reported)
    ensures ok ==> store.State(id) == Pass(old(store.State(id)), i, reported)
    ensures !ok ==> stats == stats0 && BadItem in source(stats0.passes).items
  {
    hide Sound, Accounted, Advances, LogExtends, Consistent, Paged, Pass, SetExpected, Save, Sum, RemainingBy,
         Delivers, Delivered, OnSavedPage, Settled, DistinctKeys, CyclesValid, ObservationsValid, FirstOpen, Negatives;
    ghost var cs := store.State(id);
    SoundCycle(store, id);
    OpenRowNotEmpty(cs, i, reported);
    if reported == 0 {
      AccountPass(before, cs, stats0, source, cap, i, 0, stats0.rows);
      LogIdle(log0, store.pageLog, id, source, stats0.passes, cap);
      AgreeOnPages(store, id, i, part, 0);
      stats := LoopStats(stats0.planned - part.expectedPages, stats0.committed, stats0.rows, stats0.passes + 1);
      ok := true;
    } else {
      ok, stats := SavePass(store, id, cap, at, source, stats0, part, reported, i, before, log0);
    }
  }

  /** The pass of a row that HH says has pages. */
  method SavePass(store: Memory, id: CycleId, cap: nat, at: nat, source: Source, stats0: LoopStats,
                  part: Partition, reported: int,
                  ghost i: nat, ghost before: CycleState, ghost log0: seq<SavedPage>)
    returns (ok: bool, stats: LoopStats)
    requires Running(store, id, before, log0, source, stats0, cap) && at > 0
    requires i == FirstOpen(store.PartsOf(id)) < |store.PartsOf(id)| && store.PartsOf(id)[i] == part
    requires source(stats0.passes).Page? && reported == Reported(source(stats0.passes).pages, cap) != 0
    requires cap > 0
    requires reported == part.expectedPages || part.nextPage == 0
    modifies store`cycles, store`partitions, store`observations, store`pageLog
    ensures Running(store, id, before, log0, source, stats, cap)
    ensures ok ==> stats.passes == stats0.passes + 1 && BadItem !in source(stats0.passes).items
    ensures ok ==> Advances(old(store.PartsOf(id)), store.PartsOf(id), cap, reported)
    ensures ok ==> store.State(id) == Pass(old(store.State(id)), i, reported)
    ensures !ok ==> stats == stats0 && BadItem in source(stats0.passes).items
  {
    hide Sound, Accounted, Advances, LogExtends, Consistent, Paged, Pass, SetExpected, Save, Sum, RemainingBy,
         Delivers, Delivered, OnSavedPage, Settled, DistinctKeys, CyclesValid, ObservationsValid, FirstOpen, Negatives;
    ghost var cs := store.State(id);
    SoundCycle(store, id);
    var page, readable := Observations(source(stats0.passes).items, at);
    if !readable {
      return false, stats0;
    }
    AccountPass(before, cs, stats0, source, cap, i, reported, stats0.rows + |page|);
    LogGrows(log0, store.pageLog, id, source, stats0.passes, cap, page);
    CommitPass(store, id, i, part, reported, page);
    stats := LoopStats(stats0.planned + reported - part.expectedPages, stats0.committed + 1, stats0.rows + |page|, stats0.passes + 1);
    ok := true;
  }

  /** Progress, or an answer that repeats the negative count of the row the driver is stuck on. */
  ghost predicate Moves(from: seq<Partition>, to: seq<Partition>, cap: nat, a: Answer) {
    || Sum(to, RemainingBy(cap)) < Sum(from, RemainingBy(cap))
    || (&& Sum(to, RemainingBy(cap)) == Sum(from, RemainingBy(cap))
        && Repeats(a, OpenCount(from)) && OpenCount(to) == OpenCount(from))
  }

  lemma AdvanceMoves(from: seq<Partition>, to: seq<Partition>, cap: nat, a: Answer)
    requires a.Page? && Advances(from, to, cap, Reported(a.pages, cap))
    requires Reported(a.pages, cap) != 0 ==> BadItem !in a.items
    ensures Moves(from, to, cap, a)
  {
    hide Sum, OpenCount, RemainingBy;
  }

  /** Some answer from the n-th on does not repeat the count `v`. */
  ghost predicate BreaksOff(source: Source, n: nat, v: int) {
    exists m: nat :: m >= n && !Repeats(source(m), v)
  }

  /** The driver can go on after this answer: a page, and readable unless it is reported empty. */
  predicate Passable(a: Answer) {
    a.Page? && (a.pages != 0 ==> BadItem !in a.items)
  }

  /** None of the first `n` answers ends the run by itself. */
  ghost predicate Reaches(source: Source, n: nat) {
    forall k :: 0 <= k < n ==> Passable(source(k))
  }

  /** From no pass the driver can get to does HH repeat one negative page count for ever. */
  ghost predicate NoEndlessNegative(source: Source) {
    forall n: nat, v: int :: Reaches(source, n) ==> BreaksOff(source, n, v)
  }

  /** One pass of the loop body. `more` says whether the loop goes on. */
  method FetchPage(store: Memory, id: CycleId, cap: nat, at: nat, source: Source, stats0: LoopStats,
                   earliest: nat, ghost before: CycleState, ghost log0: seq<SavedPage>, ghost asked0: seq<Query>)
    returns (more: bool, outcome: DiscoveryOutcome, stats: LoopStats, ghost asked: seq<Query>)
    requires Running(store, id, before, log0, source, stats0, cap) && cap > 0 && at > 0
    requires AskedFor(before.parts, store.PartsOf(id), asked0, earliest)
    requires |asked0| == stats0.passes && AnswersAgree(store.PartsOf(id), asked0, source, cap)
    modifies store`cycles, store`partitions, store`observations, store`pageLog
    ensures Running(store, id, before, log0, source, stats, cap)
    ensures more ==>
              && stats.passes == stats0.passes + 1 && Passable(source(stats0.passes))
              && Moves(old(store.PartsOf(id)), store.PartsOf(id), cap, source(stats0.passes))
    ensures more || outcome == Completed ==>
              && AskedFor(before.parts, store.PartsOf(id), asked, earliest)
              && |asked| == stats.passes && AnswersAgree(store.PartsOf(id), asked, source, cap)
    ensures !more ==>
              && Explained(outcome, source(stats.passes), cap)
              && (outcome == Completed ==> FirstOpen(store.PartsOf(id)) == |store.PartsOf(id)|)
  {
    hide Running, FirstOpen, Sum, Advances, Moves, AskedFor, AnswersAgree, Pass, Consistent, Paged;
    stats, outcome, more, asked := stats0, Completed, false, asked0;
    var next := store.NextDiscoveryPartition(id);
    if next.None? {
      return;
    }
    var part := next.value;
    var query := QueryFor(part, earliest);
    asked := asked0 + [query];
    var answer := source(stats.passes);
    if answer.SearchError? {
      outcome := SearchFailure;
      return;
    }
    var reported := Reported(answer.pages, cap);
    if reported != part.expectedPages && part.nextPage != 0 {
      outcome := PageCountChanged(part);
      return;
    }
    ghost var cs, i := store.State(id), FirstOpen(store.PartsOf(id));
    RunningCycle(store, id, before, log0, source, stats0, cap);
    OpenRowNotEmpty(cs, i, reported);
    more, stats := FinishPass(store, id, cap, at, source, stats, part, reported, i, before, log0);
    if more {
      PassAsks(before.parts, cs, asked0, query, earliest, i, reported);
      PassAnswers(before.parts, cs, asked0, query, earliest, i, source, cap);
      AdvanceMoves(old(store.PartsOf(id)), store.PartsOf(id), cap, answer);
    }
    outcome := ItemError;
  }

  /** The n-th answer of the run was to the n-th request; every answer about a row reported, up to the cap, the page
      count the row has. */
  predicate AnswersAgree(parts: seq<Partition>, asked: seq<Query>, source: Source, cap: nat) {
    forall k, i :: 0 <= k < |asked| && 0 <= i < |parts| && asked[k].key == parts[i].key ==>
      source(k).Page? && parts[i].expectedPages == (if source(k).pages <= cap then source(k).pages else cap)
  }

  lemma {:induction false} UnaskedRow(asked: seq<Query>, key: string, k: nat)
    requires PagesAsked(asked, key) == [] && k < |asked|
    ensures asked[k].key != key
  {
    if k < |asked| - 1 {
      UnaskedRow(asked[..|asked| - 1], key, k);
    }
  }

  lemma PassAnswers(was: seq<Partition>, cs: CycleState, asked: seq<Query>, q: Query, earliest: nat, i: nat, source: Source, cap: nat)
    requires i < |cs.parts| && Consistent(cs) && cs.parts[i].status != Complete && q.key == cs.parts[i].key
    requires source(|asked|).Page? && AnswersAgree(cs.parts, asked, source, cap) && AskedFor(was, cs.parts, asked, earliest)
    requires var reported := Reported(source(|asked|).pages, cap);
             && (reported == cs.parts[i].expectedPages || cs.parts[i].nextPage == 0)
             && (reported == 0 ==> cs.parts[i].nextPage == 0)
    ensures AnswersAgree(Pass(cs, i, Reported(source(|asked|).pages, cap)).parts, asked + [q], source, cap)
  {
    var reported := Reported(source(|asked|).pages, cap);
    if reported == 0 {
      PassCloses(cs, i);
    } else {
      PassSaves(cs, i, reported);
    }
    assert RowAsked(was[i], cs.parts[i], asked);
    if cs.parts[i].nextPage == 0 {
      forall k | 0 <= k < |asked| ensures asked[k].key != q.key {
        UnaskedRow(asked, q.key, k);
      }
    }
    OneRowAnswers(cs.parts, Pass(cs, i, reported).parts, i, asked, q, source, cap);
  }

  lemma OneRowAnswers(from: seq<Partition>, to: seq<Partition>, i: nat, asked: seq<Query>, q: Query, source: Source, cap: nat)
    requires i < |from| == |to| && to == from[i := to[i]] && to[i].key == from[i].key == q.key && DistinctKeys(from)
    requires AnswersAgree(from, asked, source, cap) && source(|asked|).Page?
    requires to[i].expectedPages == Reported(source(|asked|).pages, cap)
    requires to[i].expectedPages == from[i].expectedPages || forall k :: 0 <= k < |asked| ==> asked[k].key != q.key
    ensures AnswersAgree(to, asked + [q], source, cap)
  {
    var more := asked + [q];
    forall k, j | 0 <= k < |more| && 0 <= j < |to| && more[k].key == to[j].key
      ensures source(k).Page? && to[j].expectedPages == (if source(k).pages <= cap then source(k).pages else cap)
    {
      if k < |asked| {
        assert more[k] == asked[k] && to[j].key == from[j].key;
      } else {
        assert j == i;
      }
    }
  }

  lemma RunningCycle(store: Memory, id: CycleId, before: CycleState, log0: seq<SavedPage>, source: Source, stats: LoopStats, cap: nat)
    requires Running(store, id, before, log0, source, stats, cap)
    ensures Consistent(store.State(id)) && Paged(store.State(id))
  {
    SoundCycle(store, id);
  }

  /** The page loop. It ends, after at most |partitions| * cap error-free passes and one for every negative count. */
  method FetchPages(store: Memory, id: CycleId, perPage: int, at: nat, source: Source, earliest: nat)
    returns (outcome: DiscoveryOutcome, stats: LoopStats, ghost asked: seq<Query>)
    requires Sound(store) && DailyCycle(store, id)
    requires 1 <= perPage <= MAX_PER_PAGE && at > 0
    requires NoEndlessNegative(source)
    modifies store`cycles, store`partitions, store`observations, store`pageLog
    ensures Sound(store) && DailyCycle(store, id)
    ensures Accounted(old(store.State(id)), store.State(id), stats, source, PageCap(perPage))
    ensures stats.passes <= PageCap(perPage) * old(|store.PartsOf(id)|) + Negatives(source, stats.passes)
    ensures LogExtends(old(store.pageLog), store.pageLog, id, source, stats.passes, PageCap(perPage))
    ensures outcome == Completed ==>
              FirstOpen(store.PartsOf(id)) == |store.PartsOf(id)| && Negatives(source, stats.passes) == 0
    ensures outcome == Completed ==>
              && AskedFor(old(store.PartsOf(id)), store.PartsOf(id), asked, earliest)
              && |asked| == stats.passes && AnswersAgree(store.PartsOf(id), asked, source, PageCap(perPage))
    ensures Explained(outcome, source(stats.passes), PageCap(perPage))
    ensures outcome != Incomplete && outcome != NotReconciled && outcome != BadPerPage
  {
    var cap := PageCap(perPage);
    DivMonotone(0, MAX_SEARCH_RESULTS + perPage - 1, perPage);
    ghost var before, log0 := store.State(id), store.pageLog;
    SoundCycle(store, id);
    RemainingRange(before, cap);
    LogSame(log0, id, source, cap);
    AskedNothing(before.parts, earliest);
    hide Sound, LogExtends, FirstOpen, Sum, Consistent, Paged, Explained, AskedFor;
    outcome, stats, asked := FetchAll(store, id, cap, at, source, earliest, before, log0);
    ExplainedOutcomes(outcome, source(stats.passes), cap);
    SoundCycle(store, id);
    RemainingRange(store.State(id), cap);
    if outcome == Completed {
      DrainedHasNoNegative(store.State(id));
    }
  }

  lemma ExplainedOutcomes(outcome: DiscoveryOutcome, last: Answer, cap: nat)
    requires Explained(outcome, last, cap)
    ensures outcome != Incomplete && outcome != NotReconciled && outcome != BadPerPage
  {
  }

  lemma LogSame(log: seq<SavedPage>, id: CycleId, source: Source, cap: nat)
    ensures LogExtends(log, log, id, source, 0, cap)
  {
  }

  /** The loop itself. */
  method FetchAll(store: Memory, id: CycleId, cap: nat, at: nat, source: Source, earliest: nat,
                  ghost before: CycleState, ghost log0: seq<SavedPage>)
    returns (outcome: DiscoveryOutcome, stats: LoopStats, ghost asked: seq<Query>)
    requires Running(store, id, before, log0, source, LoopStats(0, 0, 0, 0), cap)
    requires AskedFor(before.parts, store.PartsOf(id), [], earliest)
    requires cap > 0 && at > 0 && NoEndlessNegative(source)
    modifies store`cycles, store`partitions, store`observations, store`pageLog
    ensures Running(store, id, before, log0, source, stats, cap)
    ensures Explained(outcome, source(stats.passes), cap)
    ensures outcome == Completed ==> FirstOpen(store.PartsOf(id)) == |store.PartsOf(id)|
    ensures outcome == Completed ==>
              && AskedFor(before.parts, store.PartsOf(id), asked, earliest)
              && |asked| == stats.passes && AnswersAgree(store.PartsOf(id), asked, source, cap)
  {
    hide AskedFor, Running, Explained, FirstOpen, OpenCount, Sum, Repeats, NoEndlessNegative, RemainingBy;
    stats, outcome, asked := LoopStats(0, 0, 0, 0), Completed, [];
    var more := true;
    ghost var horizon: nat := Horizon(source, 0, OpenCount(store.PartsOf(id)));
    while more
      invariant Running(store, id, before, log0, source, stats, cap)
      invariant !more ==>
                  && Explained(outcome, source(stats.passes), cap)
                  && (outcome == Completed ==> FirstOpen(store.PartsOf(id)) == |store.PartsOf(id)|)
      invariant more || outcome == Completed ==>
                  && AskedFor(before.parts, store.PartsOf(id), asked, earliest)
                  && |asked| == stats.passes && AnswersAgree(store.PartsOf(id), asked, source, cap)
      invariant more ==> Reaches(source, stats.passes)
      invariant more ==> horizon >= stats.passes && !Repeats(source(horizon), OpenCount(store.PartsOf(id)))
      decreases more, Sum(store.PartsOf(id), RemainingBy(cap)), horizon - stats.passes
    {
      ghost var from := store.PartsOf(id);
      LeftToDo(store, id, before, log0, source, stats, cap);
      more, outcome, stats, asked := FetchPage(store, id, cap, at, source, stats, earliest, before, log0, asked);
      LeftToDo(store, id, before, log0, source, stats, cap);
      if more && Sum(store.PartsOf(id), RemainingBy(cap)) < Sum(from, RemainingBy(cap)) {
        horizon := Horizon(source, stats.passes, OpenCount(store.PartsOf(id)));
      }
    }
  }

  lemma LeftToDo(store: Memory, id: CycleId, before: CycleState, log0: seq<SavedPage>, source: Source, stats: LoopStats, cap: nat)
    requires Running(store, id, before, log0, source, stats, cap)
    ensures Sum(store.PartsOf(id), RemainingBy(cap)) >= 0
  {
    RemainingRange(store.State(id), cap);
  }

  /** The next answer that does not repeat the count. */
  ghost function Horizon(source: Source, n: nat, v: int): (m: nat)
    requires NoEndlessNegative(source) && Reaches(source, n)
    ensures m >= n && !Repeats(source(m), v)
  {
    assert BreaksOff(source, n, v);
    var m: nat :| m >= n && !Repeats(source(m), v);
    m
  }

  lemma DrainedHasNoNegative(cs: CycleState)
    requires Consistent(cs) && Paged(cs) && FirstOpen(cs.parts) == |cs.parts|
    ensures !HasNegative(cs.parts)
  {
  }

  /** Every early exit is the last answer's doing. */
  predicate Explained(outcome: DiscoveryOutcome, last: Answer, cap: nat) {
    match outcome
    case Completed => true
    case SearchFailure => last == SearchError
    case PageCountChanged(part) =>
      part.nextPage != 0 && last.Page? && Reported(last.pages, cap) != part.expectedPages
    case ItemError => last.Page? && BadItem in last.items
    case _ => false
  }

  lemma RemainingRange(cs: CycleState, cap: nat)
    requires Paged(cs)
    ensures 0 <= Sum(cs.parts, RemainingBy(cap)) <= cap * |cs.parts|
  {
    PassBudget(cs.parts, cap);
  }

  /** An open row that is told zero pages is at page zero and closes without a save. */
  lemma OpenRowNotEmpty(cs: CycleState, i: nat, reported: int)
    requires i < |cs.parts| && Consistent(cs) && Paged(cs) && cs.parts[i].status != Complete
    requires reported == cs.parts[i].expectedPages || cs.parts[i].nextPage == 0
    ensures reported == 0 ==>
              && cs.parts[i].nextPage == 0 && cs.parts[i].expectedPages != 0
              && Pass(cs, i, 0) == SetExpected(cs, cs.parts[i].key, 0)
  {
  }

  /** The options with the driver's own defaults filled in. */
  function Effective(opts: DiscoveryOptions, clock: nat): DiscoveryOptions {
    var at := if opts.observedAt == 0 then clock else opts.observedAt;
    var cutoff := if opts.cutoffAt == 0 then DayUTC(at) else opts.cutoffAt;
    opts.(observedAt := at, cutoffAt := cutoff,
          cycleDate := DayUTC(if opts.cycleDate == 0 then cutoff - DAY else opts.cycleDate),
          earliest := if opts.earliest == 0 then DEFAULT_EARLIEST else opts.earliest)
  }

  function PlanOptions(o: DiscoveryOptions): Options {
    Options(o.earliest, o.cutoffAt, o.maxDepth, o.maxPartitions, o.maxRequests)
  }

  /** A cycle row starting from the plan is consistent and in bounds, so the store stays sound. */
  lemma StartedSound(c0: Cycles, p0: Partitions, id: CycleId, cycle: Cycle, rows: seq<Partition>, perPage: int)
    requires CyclesValid(c0, p0) && CyclesPaged(c0, p0) && id !in c0 && id.number == |c0| + 1
    requires 1 <= perPage <= MAX_PER_PAGE && RowsPlanned(rows, perPage)
    requires cycle == StartState(cycle, rows).cycle
    ensures CyclesValid(c0[id := cycle], p0[id := rows]) && CyclesPaged(c0[id := cycle], p0[id := rows])
  {
    var c1, p1 := c0[id := cycle], p0[id := rows];
    StartConsistent(cycle, rows);
    assert StateIn(c1, p1, id) == StartState(cycle, rows);
    assert Paged(StateIn(c1, p1, id));
    assert |c1| == |c0| + 1;
    hide Consistent, Paged;
    forall k | k in c1 && c1[k].scope == DailyDiscovery
      ensures Consistent(StateIn(c1, p1, k)) && Paged(StateIn(c1, p1, k))
    {
      if k != id {
        assert StateIn(c1, p1, k) == StateIn(c0, p0, k);
      }
    }
  }

  lemma EffectiveOptions(opts: DiscoveryOptions, clock: nat)
    requires clock > 0
    ensures Effective(opts, clock).observedAt > 0
    ensures Effective(opts, clock).perPage == opts.perPage
  {
  }

  /** Without given instants the run is about the day before the one the clock is in, cut off at its midnight;
      given ones are kept, the cycle date cut to its day. */
  lemma EffectiveDay(opts: DiscoveryOptions, clock: nat)
    ensures var o := Effective(opts, clock);
            && o.observedAt == (if opts.observedAt == 0 then clock else opts.observedAt)
            && (opts.cutoffAt == 0 ==> o.cutoffAt % 86400 == 0 && o.cutoffAt <= o.observedAt < o.cutoffAt + 86400)
            && (opts.cutoffAt != 0 ==> o.cutoffAt == opts.cutoffAt)
            && o.cycleDate % 86400 == 0
            && (opts.cycleDate == 0 ==> o.cycleDate <= o.cutoffAt - 86400 < o.cycleDate + 86400)
            && (opts.cycleDate != 0 ==> o.cycleDate <= opts.cycleDate < o.cycleDate + 86400)
            && o.earliest == (if opts.earliest == 0 then 63082281600 else opts.earliest)
  {
  }

  lemma AccountedTotals(before: CycleState, now: CycleState, stats: LoopStats, source: Source, cap: nat)
    requires Accounted(before, now, stats, source, cap)
    ensures |now.parts| == |before.parts| && SameCycle(before.cycle, now.cycle)
    ensures now.cycle.completedPages == before.cycle.completedPages + stats.committed
    ensures now.cycle.expectedPages == before.cycle.expectedPages + stats.planned
  {
  }

  /** Reconciling against what the cycle saw is reconciling against its saved pages. */
  lemma ReconciledFollows(before: Vacancies, seen: map<string, int>, log: seq<SavedPage>, id: CycleId)
    requires forall e :: e in seen <==> OnSavedPage(log, id, e)
    ensures StatusesFollow(before, Reconciled(before, seen), log, id)
  {
  }

  /** Plans the day: the rows to store and their totals. */
  /** The leaves of a plan: for every role of the catalog, in order, what that role contributes. */
  ghost predicate Leaves(leaves: seq<SearchPartition>, catalog: seq<string>, o: Options, search: Searcher) {
    exists roles, byRole ::
      && multiset(roles) == multiset(catalog) && Sorting.StrictlySorted(roles, RoleLess) && |byRole| == |roles|
      && leaves == Flatten(byRole)
      && forall i :: 0 <= i < |roles| ==> RoleLeaves(byRole[i], roles[i], o, search)
  }

  method PlanDay(o: DiscoveryOptions, clock: nat, catalog: seq<string>, catalogOk: bool, search: Searcher, keyOf: KeyOf)
    returns (outcome: DiscoveryOutcome, rows: seq<Partition>, expected: int, complete: int, ghost leaves: seq<SearchPartition>)
    requires 1 <= o.perPage <= MAX_PER_PAGE
    requires Sorting.Distinct(catalog) && CollisionFree(keyOf)
    ensures outcome.Completed? || outcome.PlanError?
    ensures outcome.Completed? ==>
              && Leaves(leaves, catalog, Defaulted(PlanOptions(o), clock), search)
              && RowsPlanned(rows, o.perPage) && RowsFor(leaves, rows, o.perPage, o.cutoffAt, keyOf)
              && expected == Sum(rows, ExpectedOf) && complete == Sum(rows, CompleteOf)
  {
    hide Tiles, RoleLeaves, RowsPlanned, RowsFor, Sorting.StrictlySorted, Sum;
    rows, expected, complete, leaves := [], 0, 0, [];
    var result, byRole, _, _, _ := PlanIT(PlanOptions(o), clock, catalog, catalogOk, search);
    if result.PlanFailed? {
      return PlanError(result.error), rows, expected, complete, leaves;
    }
    leaves := result.plan.partitions;
    var parts := result.plan.partitions;
    LeavesUnderCap(byRole, result.plan.roles, Defaulted(PlanOptions(o), clock), search);
    rows, expected, complete := BuildRows(parts, o.perPage, o.cutoffAt, keyOf);
    PlanRows(parts, o.perPage, o.cutoffAt, keyOf, rows);
    outcome := Completed;
  }

  /** Starts the day's cycle from fresh rows, or resumes it as it is stored. */
  method OpenCycle(store: Memory, o: DiscoveryOptions, rows: seq<Partition>, expected: int, complete: int)
    returns (id: CycleId)
    requires Sound(store) && 1 <= o.perPage <= MAX_PER_PAGE && RowsPlanned(rows, o.perPage)
    requires expected == Sum(rows, ExpectedOf) && complete == Sum(rows, CompleteOf)
    modifies store`cycles, store`partitions
    ensures Sound(store)
    ensures DailyCycle(store, id) && store.cycles[id].cycleDate == o.cycleDate
    ensures store.cycles[id].source == "hh" && store.cycles[id].methodVersion == METHOD_VERSION
    ensures id in old(store.cycles) ==> store.cycles == old(store.cycles) && store.partitions == old(store.partitions)
    ensures id !in old(store.cycles) ==>
              && store.PartsOf(id) == rows
              && store.cycles[id] == Cycle("hh", DailyDiscovery, "daily-discovery", o.cutoffAt, o.cycleDate, METHOD_VERSION,
                                           |rows|, complete, expected, 0, DiscoveryCycle.Running)
  {
    hide RowsPlanned, CyclesValid, CyclesPaged, ObservationsValid, Consistent, Paged, Sum;
    var cycle := Cycle("hh", DailyDiscovery, "daily-discovery", o.cutoffAt, o.cycleDate, METHOD_VERSION,
                       |rows|, complete, expected, 0, DiscoveryCycle.Running);
    ghost var c0, p0 := store.cycles, store.partitions;
    id := store.StartDiscoveryCycle(cycle, rows);
    if id !in c0 {
      StartedSound(c0, p0, id, cycle, rows, o.perPage);
    }
  }

  /** RunDailyDiscovery. `source(n)` answers the n-th page request, `search` the planner's probes.
      The clock is running, and the source does not repeat one negative page count for ever. */
  method RunDailyDiscovery(store: Memory, opts: DiscoveryOptions, clock: nat, catalog: seq<string>, catalogOk: bool,
                           search: Searcher, keyOf: KeyOf, source: Source)
    returns (outcome: DiscoveryOutcome, result: DiscoveryResult, id: CycleId, ghost leaves: seq<SearchPartition>, ghost asked: seq<Query>)
    requires Sound(store) && clock > 0
    requires Sorting.Distinct(catalog) && CollisionFree(keyOf)
    requires NoEndlessNegative(source)
    modifies store
    ensures Sound(store)
    ensures outcome != Incomplete && outcome != NotReconciled
    ensures outcome == BadPerPage <==> !(1 <= opts.perPage <= MAX_PER_PAGE)
    ensures outcome == Completed ==>
              var cap := PageCap(opts.perPage);
              && DailyCycle(store, id) && store.cycles[id].status == Finished
              && FirstOpen(store.PartsOf(id)) == |store.PartsOf(id)|
              && store.cycles[id].completedPages == store.cycles[id].expectedPages
              && result.passes <= cap * |store.PartsOf(id)|
              && LogExtends(old(store.pageLog), store.pageLog, id, source, result.passes, cap)
              && StatusesFollow(old(store.vacancies), store.vacancies, store.pageLog, id)
              && |Active(store.vacancies)| == old(|Active(store.vacancies)|)
                   + result.reconciliation.reactivated - result.reconciliation.deactivated
              && (id !in old(store.cycles) ==>
                    result.plannedPages == result.committedPages == store.cycles[id].expectedPages)
    ensures outcome == Completed ==>
              var o := Effective(opts, clock);
              && store.cycles[id].cycleDate == o.cycleDate
              && Leaves(leaves, catalog, Defaulted(PlanOptions(o), clock), search)
              && |asked| == result.passes && AnswersAgree(store.PartsOf(id), asked, source, PageCap(opts.perPage))
              && (id in old(store.cycles) ==> AskedFor(old(store.PartsOf(id)), store.PartsOf(id), asked, o.earliest))
              && (id !in old(store.cycles) ==> LeavesAsked(leaves, store.PartsOf(id), asked, o.cutoffAt, o.earliest, keyOf))
    ensures outcome != Completed ==> store.vacancies == old(store.vacancies)
    ensures store.checkpoints == old(store.checkpoints)
  {
    hide Sound, Accounted, LogExtends, StatusesFollow, RowsPlanned, RowsFor, CollisionFree, FirstOpen, Active,
         Effective, Sorting.Distinct, Leaves, AskedFor, LeavesAsked, AnswersAgree, Explained, Negatives, PageCap, Sum, Consistent, Paged;
    result, id, leaves, asked := NoResult, CycleId(true, 0), [], [];
    if opts.perPage < 1 || opts.perPage > MAX_PER_PAGE {
      return BadPerPage, result, id, leaves, asked;
    }
    var o := Effective(opts, clock);
    EffectiveOptions(opts, clock);
    var rows, planned, complete;
    outcome, rows, planned, complete, leaves := PlanDay(o, clock, catalog, catalogOk, search, keyOf);
    if outcome != Completed {
      return;
    }
    id := OpenCycle(store, o, rows, planned, complete);
    ghost var started := store.State(id);
    var stats;
    outcome, stats, asked := FetchPages(store, id, o.perPage, o.observedAt, source, o.earliest);
    result := DiscoveryResult(planned + stats.planned, stats.committed, stats.rows, stats.passes, Reconciliation(0, 0, 0));
    if outcome != Completed {
      return;
    }
    AccountedTotals(started, store.State(id), stats, source, PageCap(o.perPage));
    if id !in old(store.cycles) {
      SoundCycle(store, id);
      AllLeavesAsked(leaves, rows, store.State(id), asked, o.perPage, o.cutoffAt, o.earliest, keyOf);
    }
    outcome, result := FinishCycle(store, id, result);
  }

  /** What a new cycle that completed has asked for each leaf of its plan: nothing for an empty one; otherwise its
      own role and window, page zero alone if HH then reported no pages, else every page once, in order. */
  ghost predicate LeavesAsked(leaves: seq<SearchPartition>, parts: seq<Partition>, asked: seq<Query>, cutoff: nat, earliest: nat, keyOf: KeyOf) {
    && |parts| == |leaves|
    && (forall i :: 0 <= i < |parts| ==> LeafAsked(leaves[i], parts[i], asked, cutoff, keyOf))
    && (forall q :: q in asked ==> exists i :: 0 <= i < |parts| && Asks(q, parts[i], earliest))
  }

  predicate LeafAsked(leaf: SearchPartition, part: Partition, asked: seq<Query>, cutoff: nat, keyOf: KeyOf) {
    && part.key == keyOf(leaf.roleId, leaf.from, leaf.to) && part.roleId == leaf.roleId
    && part.dateFrom == leaf.from && part.dateTo == (if leaf.to == 0 then cutoff else leaf.to)
    && PagesAsked(asked, part.key) ==
       if leaf.found <= 0 then [] else if part.expectedPages == 0 then [0] else Pages(0, part.expectedPages)
  }

  lemma AllLeavesAsked(leaves: seq<SearchPartition>, rows: seq<Partition>, cs: CycleState, asked: seq<Query>,
                       perPage: int, cutoff: nat, earliest: nat, keyOf: KeyOf)
    requires RowsFor(leaves, rows, perPage, cutoff, keyOf) && AskedFor(rows, cs.parts, asked, earliest)
    requires Consistent(cs) && FirstOpen(cs.parts) == |cs.parts|
    ensures LeavesAsked(leaves, cs.parts, asked, cutoff, earliest, keyOf)
  {
    forall i | 0 <= i < |cs.parts| ensures LeafAsked(leaves[i], cs.parts[i], asked, cutoff, keyOf) {
      assert RowFor(leaves[i], rows[i], perPage, cutoff, keyOf) && RowAsked(rows[i], cs.parts[i], asked);
      assert Settled(cs.parts[i]);
      hide Pages, PagesAsked;
    }
  }

  /** Completes the drained cycle and reconciles; neither call can refuse. */
  method FinishCycle(store: Memory, id: CycleId, partial: DiscoveryResult)
    returns (outcome: DiscoveryOutcome, result: DiscoveryResult)
    requires Sound(store) && DailyCycle(store, id) && FirstOpen(store.PartsOf(id)) == |store.PartsOf(id)|
    modifies store`cycles, store`vacancies
    ensures Sound(store) && DailyCycle(store, id) && store.cycles[id].status == Finished
    ensures store.PartsOf(id) == old(store.PartsOf(id))
    ensures store.cycles[id] == old(store.cycles[id]).(status := Finished)
    ensures store.cycles[id].completedPages == store.cycles[id].expectedPages
    ensures outcome == Completed && result == partial.(reconciliation := result.reconciliation)
    ensures StatusesFollow(old(store.vacancies), store.vacancies, store.pageLog, id)
    ensures |Active(store.vacancies)| == old(|Active(store.vacancies)|)
              + result.reconciliation.reactivated - result.reconciliation.deactivated
  {
    hide Consistent, Paged, CyclesValid, CyclesPaged, ObservationsValid, Stamped, FirstOpen, StatusesFollow, Active,
         Reconciled, Seen, Woken, Retired, Kept, OnSavedPage;
    result := partial;
    ghost var c0, p0, before := store.cycles, store.partitions, store.vacancies;
    SoundCycle(store, id);
    DrainedIsComplete(store.State(id));
    StatusOnly(store.State(id));
    var ok := store.CompleteDiscoveryCycle(id);
    if !ok {
      return Incomplete, result;
    }
    OneCycleChanged(c0, p0, store.cycles, store.partitions, id);
    KeyedObservations(store);
    var counts := store.ReconcileDiscoveryStatuses(id);
    if counts.None? {
      return NotReconciled, result;
    }
    ghost var seen := Seen(store.observations, id);
    ActiveBalance(before, seen);
    forall e ensures e in seen <==> OnSavedPage(store.pageLog, id, e) {
      SeenIsSaved(store, id, e);
    }
    ReconciledFollows(before, seen, store.pageLog, id);
    result := partial.(reconciliation := counts.value);
    return Completed, result;
  }

  lemma StatusOnly(cs: CycleState)
    requires Consistent(cs) && Paged(cs)
    ensures var done := cs.(cycle := cs.cycle.(status := Finished)); Consistent(done) && Paged(done)
  {
  }

  lemma KeyedObservations(store: Memory)
    requires Sound(store)
    ensures forall k :: k in store.observations ==> store.observations[k].externalId == k.1
  {
  }
}
