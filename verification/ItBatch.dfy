/** RunITBatch: continue the persisted partition plan within one request budget. */
module ItBatch {
  import opened Planner
  import opened DiscoveryCycle
  import opened MemoryStore
  import opened Sorting
  import opened Sums
  import R = Runner
  import C = Checkpoint

  datatype BatchOptions = BatchOptions(
    perPage: int, maxDepth: int, maxPartitions: int, maxBatchParts: int, maxPagesPerPart: int, maxRequests: int, now: nat)

  /** The cycle cursor kept as JSON in the checkpoint table. */
  datatype ItCycle = ItCycle(id: CycleId, cycleEnd: nat, next: nat, complete: bool, partitions: seq<SearchPartition>)

  datatype BatchOutcome =
    | Done
    | BadOptions
    | BadCursor
    | PlanError(error: PlanError)
    | BudgetTooSmall
    | PartitionIncomplete
    | CycleError

  datatype BatchStats = BatchStats(probes: nat, fetched: nat, pages: nat, completedParts: nat)

  class CursorStore {
    var cycle: Optional<ItCycle>

    constructor ()
      ensures cycle == None
    {
      cycle := None;
    }
  }

  /** What HH answers while a partition of the plan is run. */
  type Sources = SearchPartition -> R.World

  /** Pages hold at most perPage items, and a partition that was empty when planned is still empty. */
  ghost predicate Honest(sources: Sources, perPage: nat) {
    forall p :: R.PagesAtMost(sources(p), perPage) && (p.found == 0 ==> R.PagesAtMost(sources(p), 0))
  }

  /** The committed pages of every scope the batch driver has run. */
  type Logs = imap<string, seq<C.Commit>>

  /** Each scope's committed pages are in order and its stored cursor is the next one. */
  ghost predicate LogsAgree(st: Memory, logs: Logs)
    reads st`checkpoints
  {
    forall scope :: scope in logs ==> R.CursorAgrees(st, scope, logs[scope])
  }

  ghost predicate LogsGrow(a: Logs, b: Logs) {
    a.Keys == b.Keys && forall scope :: scope in a ==> a[scope] <= b[scope]
  }

  /** A terminal page of the scope was committed after the log `a`. */
  ghost predicate FinishedSince(a: Logs, b: Logs, scope: string) {
    scope in a && scope in b && exists j :: |a[scope]| <= j < |b[scope]| && b[scope][j].terminal
  }

  /** The scope's cursor stands at the depth limit, where no run requests a page. */
  ghost predicate StuckScope(logs: Logs, scope: string, perPage: int) {
    scope in logs && C.NextPage(logs[scope]) >= R.ResolvePageLimit(0, perPage)
  }

  lemma GrowChain(a: Logs, b: Logs, c: Logs)
    requires LogsGrow(a, b) && LogsGrow(b, c)
    ensures LogsGrow(a, c)
    ensures forall scope :: FinishedSince(a, b, scope) || FinishedSince(b, c, scope) ==> FinishedSince(a, c, scope)
  {
    forall scope | FinishedSince(a, b, scope) || FinishedSince(b, c, scope) ensures FinishedSince(a, c, scope) {
      if FinishedSince(a, b, scope) {
        var j :| |a[scope]| <= j < |b[scope]| && b[scope][j].terminal;
        assert c[scope][j] == b[scope][j];
      } else {
        var j :| |b[scope]| <= j < |c[scope]| && c[scope][j].terminal;
        assert |a[scope]| <= j;
      }
    }
  }

  lemma GrowSelf(a: Logs)
    ensures LogsGrow(a, a)
  {
  }

  /** From `logs0` to `logs` every logged partition from `start.next` up to `next` had a terminal page committed; if the
      first of them was stuck, nothing happened at all. */
  ghost predicate LoggedUpTo(logs0: Logs, logs: Logs, start: ItCycle, next: nat, scopeOf: SearchPartition -> string, perPage: int)
  {
    && LogsGrow(logs0, logs) && start.next <= next <= |start.partitions|
    && (forall k :: start.next <= k < next && scopeOf(start.partitions[k]) in logs0 ==>
          FinishedSince(logs0, logs, scopeOf(start.partitions[k])))
    && (start.next < |start.partitions| && StuckScope(logs0, scopeOf(start.partitions[start.next]), perPage) ==>
          next == start.next && logs == logs0)
  }

  lemma LoggedNone(logs0: Logs, start: ItCycle, scopeOf: SearchPartition -> string, perPage: int)
    requires ValidCursor(start)
    ensures LoggedUpTo(logs0, logs0, start, start.next, scopeOf, perPage)
  {
  }

  lemma LoggedMore(logs0: Logs, earlier: Logs, logs: Logs, start: ItCycle, next: nat,
                   scopeOf: SearchPartition -> string, perPage: int, completed: bool)
    requires LoggedUpTo(logs0, earlier, start, next, scopeOf, perPage) && next < |start.partitions|
    requires LogsGrow(earlier, logs)
    requires completed && scopeOf(start.partitions[next]) in earlier ==> FinishedSince(earlier, logs, scopeOf(start.partitions[next]))
    requires StuckScope(earlier, scopeOf(start.partitions[next]), perPage) ==> logs == earlier && !completed
    ensures LoggedUpTo(logs0, logs, start, if completed then next + 1 else next, scopeOf, perPage)
  {
    GrowChain(logs0, earlier, logs);
    hide LogsGrow, FinishedSince;
  }

  lemma SameScopes(logs0: Logs, logs: Logs, start: ItCycle, next: nat, scopeOf: SearchPartition -> string, perPage: int)
    requires LoggedUpTo(logs0, logs, start, next, scopeOf, perPage)
    ensures LogsGrow(logs0, logs) && logs0.Keys == logs.Keys
  {
  }

  predicate ValidCursor(c: ItCycle) { c.next <= |c.partitions| }

  predicate Resumable(c: Optional<ItCycle>) { c.Some? && !c.value.complete }

  const IT_SCOPE := "it-cycle-v1"

  /** Cycles under the batch driver's own scope hash, and the cycle its cursor names, are not discovery cycles. */
  predicate OwnCycles(cycles: map<CycleId, Cycle>, cursor: Optional<ItCycle>) {
    && (forall k :: k in cycles && cycles[k].scopeHash == IT_SCOPE ==> cycles[k].scope == AllIT)
    && (cursor.Some? && cursor.value.id in cycles ==> cycles[cursor.value.id].scope == AllIT)
  }

  /** The pages the remaining budget can pay for, each costing itself and its details. */
  function Affordable(found: int, remaining: int, perPage: nat): nat
    requires perPage > 0
  {
    if remaining <= 0 then 0 else if found == 0 then 1 else remaining / (perPage + 1)
  }

  /** Nothing without budget, one page for an empty partition, else the most pages whose requests the budget covers. */
  lemma AffordableMost(found: int, remaining: int, perPage: nat)
    requires perPage > 0
    ensures var n, cost := Affordable(found, remaining, perPage), perPage + 1;
            && (remaining <= 0 ==> n == 0)
            && (remaining > 0 && found == 0 ==> n == 1)
            && (remaining > 0 && found != 0 ==> n * cost <= remaining < (n + 1) * cost)
  {
    if remaining > 0 && found != 0 {
      var n, cost := Affordable(found, remaining, perPage), perPage + 1;
      assert remaining == n * cost + remaining % cost;
      assert (n + 1) * cost == n * cost + cost;
    }
  }

  /** A partition run within the affordable pages stays within the remaining budget. */
  lemma WithinBudget(found: int, remaining: int, perPage: nat, pages: nat, fetched: nat, allowed: nat)
    requires perPage > 0 && remaining >= 0 && pages <= allowed <= Affordable(found, remaining, perPage)
    requires fetched <= perPage * pages
    requires found == 0 ==> fetched == 0
    ensures fetched + pages <= remaining
  {
    if found != 0 && remaining > 0 {
      var q := remaining / (perPage + 1);
      ScaleLe(pages, q, perPage + 1);
      assert (perPage + 1) * q <= remaining;
      assert pages * (perPage + 1) == perPage * pages + pages;
    }
  }

  /** Resumes the stored cycle or plans a new one; the probes are paid from the budget. */
  method OpenPlan(st: Memory, cs: CursorStore, o: BatchOptions, catalog: seq<string>, catalogOk: bool, search: Searcher)
    returns (outcome: BatchOutcome, cycle: ItCycle, probes: nat)
    requires st.Valid() && OwnCycles(st.cycles, cs.cycle) && Distinct(catalog) && o.maxRequests >= 2
    modifies st`cycles, cs
    ensures st.Valid() && OwnCycles(st.cycles, cs.cycle)
    ensures probes <= o.maxRequests
    ensures outcome == Done ==>
              && ValidCursor(cycle) && cs.cycle == Some(cycle) && !cycle.complete
              && (if Resumable(old(cs.cycle)) then old(cs.cycle) == Some(cycle) && probes == 0
                  else cycle.next == 0 && cycle.cycleEnd == o.now && StrictlySorted(cycle.partitions, PartLess)
                       && probes == 1 + 2 * |cycle.partitions| - |catalog|
                       && cycle.id in st.cycles
                       && (cycle.id !in old(st.cycles) ==>
                             st.cycles[cycle.id] == Cycle("hh", AllIT, IT_SCOPE, o.now, 0, "", |cycle.partitions|, 0, 0, 0, Running)))
    ensures outcome != Done ==> cs.cycle == old(cs.cycle) && probes == 0 && (outcome.BadCursor? || outcome.PlanError?)
    ensures outcome == BadCursor <==> old(cs.cycle).Some? && !ValidCursor(old(cs.cycle).value)
  {
    probes := 0;
    cycle := ItCycle(CycleId(false, 0), 0, 0, false, []);
    if cs.cycle.Some? {
      cycle := cs.cycle.value;
      if !ValidCursor(cycle) {
        outcome := BadCursor;
        return;
      }
      if !cycle.complete {
        outcome := Done;
        return;
      }
    }
    var result, _, _, _, _ := PlanIT(Options(0, o.now, o.maxDepth, o.maxPartitions, o.maxRequests), o.now, catalog, catalogOk, search);
    if result.PlanFailed? {
      outcome := PlanError(result.error);
      return;
    }
    var parts := result.plan.partitions;
    var id := st.StartCycle(Cycle("hh", AllIT, IT_SCOPE, o.now, 0, "", |parts|, 0, 0, 0, Running));
    cycle := ItCycle(id, o.now, 0, false, parts);
    assert |multiset(result.plan.roles)| == |multiset(catalog)|;
    probes := result.plan.probeRequests;
    cs.cycle := Some(cycle);
    outcome := Done;
  }

  /** The partition loop: whole partitions in plan order, each saved before the next starts. */
  method RunPartitions(st: Memory, cs: CursorStore, o: BatchOptions, sources: Sources, scopeOf: SearchPartition -> string,
                       start: ItCycle, budget: nat, ghost logs0: Logs)
    returns (outcome: BatchOutcome, cycle: ItCycle, stats: BatchStats, ghost runs: seq<R.RunResult>, ghost logs: Logs)
    requires st.Valid() && ValidCursor(start) && cs.cycle == Some(start) && OwnCycles(st.cycles, cs.cycle)
    requires 1 <= o.perPage <= R.MAX_PER_PAGE && o.maxBatchParts >= 1 && o.maxPagesPerPart >= 1
    requires LogsAgree(st, logs0)
    modifies st`vacancies, st`checkpoints, st`cycles, cs
    ensures st.Valid() && OwnCycles(st.cycles, cs.cycle)
    ensures stats.probes == 0 && (Honest(sources, o.perPage) ==> stats.fetched + stats.pages <= budget)
    ensures cycle == start.(next := cycle.next) && start.next <= cycle.next <= |start.partitions|
    ensures LogsAgree(st, logs) && LoggedUpTo(logs0, logs, start, cycle.next, scopeOf, o.perPage)
    ensures cs.cycle == Some(cycle)
    ensures stats.completedParts == cycle.next - start.next <= o.maxBatchParts
    ensures FinishedRuns(runs, stats.completedParts) && stats.completedParts <= |runs|
    ensures |runs| > stats.completedParts ==>
              outcome == if runs[stats.completedParts].status == R.Success then Done else PartitionIncomplete
    ensures outcome == PartitionIncomplete ==> |runs| > stats.completedParts
    ensures RunsTally(runs, stats.fetched, stats.pages)
    ensures outcome in {Done, BudgetTooSmall, PartitionIncomplete, CycleError}
    ensures outcome == BudgetTooSmall ==> stats.pages == 0 && budget < o.perPage + 1
    ensures outcome == Done && cycle.next < |start.partitions| && stats.completedParts < o.maxBatchParts ==>
              (stats.pages > 0 && budget - stats.fetched - stats.pages < o.perPage + 1) || |runs| > stats.completedParts
  {
    hide CyclesValid, ObservationsValid, OwnCycles, Affordable, Honest, LogsAgree, LogsGrow, FinishedSince, StuckScope, LoggedUpTo, RunsTally, FinishedRuns;
    NoRuns();
    cycle, stats, outcome, runs, logs := start, BatchStats(0, 0, 0, 0), Done, [], logs0;
    LoggedNone(logs0, start, scopeOf, o.perPage);
    var remaining: int := budget;
    while cycle.next < |cycle.partitions|
      invariant st.Valid() && cs.cycle == Some(cycle) && OwnCycles(st.cycles, cs.cycle)
      invariant cycle == start.(next := cycle.next) && start.next <= cycle.next <= |start.partitions|
      invariant stats.probes == 0 && stats.completedParts == cycle.next - start.next <= o.maxBatchParts
      invariant stats.pages == 0 ==> stats.fetched == 0
      invariant remaining + stats.fetched + stats.pages == budget && (Honest(sources, o.perPage) ==> remaining >= 0)
      invariant |runs| == stats.completedParts && FinishedRuns(runs, |runs|) && outcome == Done
      invariant RunsTally(runs, stats.fetched, stats.pages)
      invariant LogsAgree(st, logs) && LoggedUpTo(logs0, logs, start, cycle.next, scopeOf, o.perPage)
      decreases |start.partitions| - cycle.next
    {
      if stats.completedParts >= o.maxBatchParts {
        break;
      }
      var part := cycle.partitions[cycle.next];
      var maxPages := PagesFor(part.found, remaining, o);
      if maxPages < 1 {
        if stats.pages == 0 {
          outcome := BudgetTooSmall;
          return;
        }
        break;
      }
      ghost var earlier := logs;
      var run;
      SameScopes(logs0, logs, start, cycle.next, scopeOf, o.perPage);
      run, logs := RunPartition(st, part, sources, scopeOf(part), maxPages, remaining, o, logs);
      LoggedMore(logs0, earlier, logs, start, cycle.next, scopeOf, o.perPage, run.completed);
      MoreRuns(runs, run, stats.fetched, stats.pages);
      runs := runs + [run];
      stats := stats.(fetched := stats.fetched + run.stats.fetched, pages := stats.pages + run.stats.pages);
      remaining := remaining - (run.stats.fetched + run.stats.pages);
      if !run.completed {
        outcome := if run.status == R.Success then Done else PartitionIncomplete;
        return;
      }
      cycle := cycle.(next := cycle.next + 1);
      stats := stats.(completedParts := stats.completedParts + 1);
      var ok := SaveProgress(st, cs, cycle);
      if !ok {
        outcome := CycleError;
        return;
      }
    }
  }

  /** The cursor is saved first, then the cycle row. */
  method SaveProgress(st: Memory, cs: CursorStore, cycle: ItCycle) returns (ok: bool)
    requires st.Valid() && OwnCycles(st.cycles, cs.cycle) && cs.cycle.Some? && cs.cycle.value.id == cycle.id
    modifies st`cycles, cs
    ensures st.Valid() && OwnCycles(st.cycles, cs.cycle)
    ensures cs.cycle == Some(cycle) && ok == (cycle.id in old(st.cycles))
    ensures ok ==> st.cycles == old(st.cycles)[cycle.id := old(st.cycles)[cycle.id].(completedPartitions := cycle.next)]
    ensures !ok ==> st.cycles == old(st.cycles)
  {
    cs.cycle := Some(cycle);
    ok := st.UpdateCycleProgress(cycle.id, cycle.next);
  }

  function FetchedOf(r: R.RunResult): int { r.stats.fetched }
  function PagesOf(r: R.RunResult): int { r.stats.pages }

  /** What was fetched is what the runs fetched. */
  ghost predicate RunsTally(runs: seq<R.RunResult>, fetched: nat, pages: nat) {
    fetched == Sum(runs, FetchedOf) && pages == Sum(runs, PagesOf)
  }

  lemma NoRuns()
    ensures RunsTally([], 0, 0) && FinishedRuns([], 0)
  {
  }

  lemma MoreRuns(runs: seq<R.RunResult>, run: R.RunResult, fetched: nat, pages: nat)
    requires RunsTally(runs, fetched, pages) && FinishedRuns(runs, |runs|)
    ensures RunsTally(runs + [run], fetched + run.stats.fetched, pages + run.stats.pages)
    ensures FinishedRuns(runs + [run], if run.completed then |runs| + 1 else |runs|)
  {
    SumAppend(runs, [run], FetchedOf);
    SumAppend(runs, [run], PagesOf);
  }

  /** The first `n` runs completed their partition and at most one more was started. */
  predicate FinishedRuns(runs: seq<R.RunResult>, n: nat) {
    n <= |runs| <= n + 1 && (forall i :: 0 <= i < n ==> runs[i].completed) && (|runs| == n + 1 ==> !runs[n].completed)
  }

  lemma FewerPages(found: int, perPage: nat, cap: int)
    requires perPage >= 1
    ensures var needed := (found + perPage - 1) / perPage;
            && (needed < 1 ==> found <= 0)
            && (1 < cap <= needed ==> (cap - 1) * perPage < found)
  {
    DividedUp(found, perPage);
    var needed := (found + perPage - 1) / perPage;
    if needed < 1 {
      ScaleLe(needed, 0, perPage);
    }
    if 1 < cap <= needed {
      ScaleLe(cap - 1, needed - 1, perPage);
    }
  }

  /** The pages one partition may use now; zero when the budget cannot fund one. */
  function PagesFor(found: int, remaining: int, o: BatchOptions): (r: int)
    requires o.perPage >= 1 && o.maxPagesPerPart >= 1
    ensures r <= Affordable(found, remaining, o.perPage) && r <= o.maxPagesPerPart
    ensures r < 1 ==> remaining < o.perPage + 1 && (found == 0 ==> remaining <= 0)
    ensures r < 1 <==> Affordable(found, remaining, o.perPage) == 0
    ensures r >= 1 ==> r * o.perPage >= found || r == Affordable(found, remaining, o.perPage) || r == o.maxPagesPerPart
    ensures r > 1 ==> (r - 1) * o.perPage < found
  {
    DividedUp(found, o.perPage);
    FewerPages(found, o.perPage, Least(Affordable(found, remaining, o.perPage), o.maxPagesPerPart));
    var needed := (found + o.perPage - 1) / o.perPage;
    var affordable := Affordable(found, remaining, o.perPage);
    if affordable < 1 then 0
    else Least(Least(if needed < 1 then 1 else needed, affordable), o.maxPagesPerPart)
  }

  lemma RunAffordable(s: R.Stats, found: int, world: R.World, remaining: int, maxPages: nat, perPage: nat)
    requires 1 <= perPage <= R.MAX_PER_PAGE && 1 <= maxPages <= Affordable(found, remaining, perPage)
    requires R.PagesAtMost(world, perPage) && (found == 0 ==> R.PagesAtMost(world, 0)) && remaining >= 0
    requires R.Spent(s, world, R.PageSize(perPage)) && s.pages <= maxPages
    ensures s.fetched + s.pages <= remaining
  {
    hide Affordable;
    WithinBudget(found, remaining, perPage, s.pages, s.fetched, maxPages);
  }

  lemma NothingFetched(s: R.Stats, world: R.World, perPage: nat)
    requires R.Spent(s, world, R.PageSize(perPage))
    ensures s.pages == 0 ==> s.fetched == 0
  {
  }

  /** One partition run; its scope's log grows, every other scope is left alone. */
  method RunPartition(st: Memory, part: SearchPartition, sources: Sources, scope: string, maxPages: nat, remaining: int,
                      o: BatchOptions, ghost logs0: Logs)
    returns (run: R.RunResult, ghost logs: Logs)
    requires 1 <= o.perPage <= R.MAX_PER_PAGE
    requires 1 <= maxPages <= Affordable(part.found, remaining, o.perPage)
    requires LogsAgree(st, logs0)
    modifies st`vacancies, st`checkpoints
    ensures Honest(sources, o.perPage) && remaining >= 0 ==> run.stats.fetched + run.stats.pages <= remaining
    ensures run.stats.pages == 0 ==> run.stats.fetched == 0
    ensures LogsAgree(st, logs) && LogsGrow(logs0, logs)
    ensures run.completed && scope in logs0 ==> FinishedSince(logs0, logs, scope)
    ensures StuckScope(logs0, scope, o.perPage) ==>
              logs == logs0 && run == R.RunResult(R.Success, R.Stats(0, 0, 0, 0, 0, 0), false)
  {
    hide R.Conserved, R.Spent, R.PagesAtMost, R.ResolvePageLimit, R.Asked, Affordable, C.NextPage, C.InOrder, C.ParseCursorPage;
    ghost var asked, left, log;
    ghost var log0 := if scope in logs0 then logs0[scope] else [];
    run, asked, left, log := R.Run(st, scope, maxPages, o.perPage, sources(part), log0);
    logs := if scope in logs0 then logs0[scope := log] else logs0;
    NothingFetched(run.stats, sources(part), o.perPage);
    if Honest(sources, o.perPage) && remaining >= 0 {
      RunAffordable(run.stats, part.found, sources(part), remaining, maxPages, o.perPage);
    }
    assert forall other :: other != scope ==> R.Stored(st, other) == old(R.Stored(st, other));
  }

  function Least(a: int, b: int): int { if a < b then a else b }

  /** RunITBatch: probes, page requests and detail requests together never exceed MaxRequests. */
  method RunITBatch(st: Memory, cs: CursorStore, o: BatchOptions, catalog: seq<string>, catalogOk: bool, search: Searcher,
                    sources: Sources, scopeOf: SearchPartition -> string, ghost logs0: Logs)
    returns (outcome: BatchOutcome, stats: BatchStats, cycleComplete: bool, ghost logs: Logs)
    requires st.Valid() && Distinct(catalog) && OwnCycles(st.cycles, cs.cycle)
    requires LogsAgree(st, logs0)
    modifies st`vacancies, st`checkpoints, st`cycles, cs
    ensures st.Valid() && OwnCycles(st.cycles, cs.cycle)
    ensures outcome == BadOptions <==>
              !(1 <= o.perPage <= R.MAX_PER_PAGE && o.maxRequests >= 2 && o.maxBatchParts >= 1 && o.maxPagesPerPart >= 1)
    ensures LogsAgree(st, logs) && LogsGrow(logs0, logs)
    ensures Resumable(old(cs.cycle)) && ValidCursor(old(cs.cycle).value) ==>
              var c := old(cs.cycle).value;
              LoggedUpTo(logs0, logs, c, c.next + stats.completedParts, scopeOf, o.perPage)
    ensures outcome == BadOptions ==> stats == BatchStats(0, 0, 0, 0)
    ensures outcome != BadOptions && Honest(sources, o.perPage) ==>
              stats.probes + stats.fetched + stats.pages <= o.maxRequests
    ensures Resumable(old(cs.cycle)) && ValidCursor(old(cs.cycle).value) ==>
              && stats.probes == 0 && cs.cycle.Some?
              && var was, now := old(cs.cycle).value, cs.cycle.value;
                 now == was.(next := was.next + stats.completedParts, complete := cycleComplete)
    ensures !Resumable(old(cs.cycle)) && outcome in {Done, BudgetTooSmall, PartitionIncomplete, CycleError} ==>
              cs.cycle.Some? && stats.probes == 1 + 2 * |cs.cycle.value.partitions| - |catalog|
    ensures cycleComplete ==> outcome == Done && cs.cycle.Some? && cs.cycle.value.complete
                              && cs.cycle.value.next == |cs.cycle.value.partitions|
    ensures outcome == Done && !cycleComplete ==> cs.cycle.Some? && cs.cycle.value.next < |cs.cycle.value.partitions|
  {
    hide CyclesValid, ObservationsValid, Honest, FinishedRuns, RunsTally, LogsAgree, LogsGrow, LoggedUpTo, StrictlySorted, Distinct;
    GrowSelf(logs0);
    logs := logs0;
    if cs.cycle.Some? && ValidCursor(cs.cycle.value) {
      LoggedNone(logs0, cs.cycle.value, scopeOf, o.perPage);
    }
    stats, cycleComplete := BatchStats(0, 0, 0, 0), false;
    if o.perPage < 1 || o.perPage > R.MAX_PER_PAGE || o.maxRequests < 2 || o.maxBatchParts < 1 || o.maxPagesPerPart < 1 {
      outcome := BadOptions;
      return;
    }
    var cycle, probes;
    outcome, cycle, probes := OpenPlan(st, cs, o, catalog, catalogOk, search);
    if outcome != Done {
      return;
    }
    ghost var first, runs := cycle, [];
    outcome, cycle, stats, runs, logs := RunPartitions(st, cs, o, sources, scopeOf, cycle, o.maxRequests - probes, logs0);
    SameScopes(logs0, logs, first, cycle.next, scopeOf, o.perPage);
    stats := stats.(probes := probes);
    if outcome != Done {
      return;
    }
    if cycle.next == |cycle.partitions| {
      var ok := st.CompleteCycle(cycle.id, cycle.next);
      if !ok {
        outcome := CycleError;
        return;
      }
      cs.cycle := Some(cycle.(complete := true));
      cycleComplete := true;
    }
  }

  /** One scheduled batch: its options and what HH answers while it runs. */
  datatype BatchCall = BatchCall(o: BatchOptions, catalog: seq<string>, catalogOk: bool, search: Searcher, sources: Sources)

  /** The next partition of the stored cycle stands at the depth limit. */
  ghost predicate StuckCycle(cursor: Optional<ItCycle>, logs: Logs, scopeOf: SearchPartition -> string, perPage: int) {
    && Resumable(cursor) && ValidCursor(cursor.value) && cursor.value.next < |cursor.value.partitions|
    && StuckScope(logs, scopeOf(cursor.value.partitions[cursor.value.next]), perPage)
  }

  /** Batch after batch: the committed pages of every scope only grow, in order, and a cycle whose next partition is
      stuck at the depth limit never moves again. */
  method RunBatches(st: Memory, cs: CursorStore, calls: seq<BatchCall>, scopeOf: SearchPartition -> string, perPage: int,
                    ghost logs0: Logs)
    returns (ghost logs: Logs)
    requires st.Valid() && OwnCycles(st.cycles, cs.cycle) && LogsAgree(st, logs0)
    requires forall c :: c in calls ==> Distinct(c.catalog) && c.o.perPage == perPage
    modifies st`vacancies, st`checkpoints, st`cycles, cs
    ensures st.Valid() && OwnCycles(st.cycles, cs.cycle)
    ensures LogsAgree(st, logs) && LogsGrow(logs0, logs)
    ensures old(StuckCycle(cs.cycle, logs0, scopeOf, perPage)) ==> cs.cycle == old(cs.cycle) && logs == logs0
  {
    hide CyclesValid, ObservationsValid, OwnCycles, Honest, LogsAgree, LogsGrow, FinishedSince, StuckScope, Distinct;
    logs := logs0;
    GrowSelf(logs0);
    ghost var stuck := StuckCycle(cs.cycle, logs0, scopeOf, perPage);
    for i := 0 to |calls|
      invariant st.Valid() && OwnCycles(st.cycles, cs.cycle)
      invariant LogsAgree(st, logs) && LogsGrow(logs0, logs)
      invariant stuck ==> cs.cycle == old(cs.cycle) && logs == logs0
    {
      var c := calls[i];
      assert c in calls;
      ghost var earlier := logs;
      var outcome, stats, complete;
      outcome, stats, complete, logs := RunITBatch(st, cs, c.o, c.catalog, c.catalogOk, c.search, c.sources, scopeOf, logs);
      GrowChain(logs0, earlier, logs);
    }
  }
}
