/** The in-memory store. Composite string keys ("source|id", "cycle|id") are pairs here. */
module MemoryStore {
  import opened Sums
  import opened DiscoveryCycle

  /** Both id formats end in the number of cycles at creation time. */
  datatype CycleId = CycleId(daily: bool, number: nat)

  datatype Observation = Observation(externalId: string, observedAt: int)

  datatype Vacancy = Vacancy(
    source: string, externalId: string, contentHash: string, isActive: bool, collectedAt: int)

  type VacancyKey = (string, string)
  type Vacancies = map<VacancyKey, Vacancy>
  type Observations = map<(CycleId, string), Observation>

  datatype SavedPage = SavedPage(cycle: CycleId, observations: seq<Observation>)

  datatype Reconciliation = Reconciliation(reactivated: nat, deactivated: nat, stillActive: nat)

  datatype Optional<T> = None | Some(value: T)

  const ZeroCycle := Cycle("", AllIT, "", 0, 0, "", 0, 0, 0, 0, Running)

  /* ---- observations ---- */

  function Observe(all: Observations, id: CycleId, page: seq<Observation>): Observations
    decreases |page|
  {
    if page == [] then all else Observe(all[(id, page[0].externalId) := page[0]], id, page[1..])
  }

  /** The (cycle, vacancy) pairs on the saved pages. */
  function LoggedKeys(log: seq<SavedPage>): set<(CycleId, string)> {
    if log == [] then {}
    else
      var last := log[|log| - 1];
      LoggedKeys(log[..|log| - 1]) + PageKeys(last)
  }

  function PageKeys(page: SavedPage): set<(CycleId, string)> {
    set o | o in page.observations :: (page.cycle, o.externalId)
  }

  /** Some saved page of cycle `id` held vacancy `externalId`. */
  ghost predicate OnSavedPage(log: seq<SavedPage>, id: CycleId, externalId: string) {
    exists page, o :: page in log && page.cycle == id && o in page.observations && o.externalId == externalId
  }

  lemma {:induction false} LoggedKeysMeaning(log: seq<SavedPage>, id: CycleId, externalId: string)
    ensures (id, externalId) in LoggedKeys(log) <==> OnSavedPage(log, id, externalId)
  {
    if log != [] {
      var front, last := log[..|log| - 1], log[|log| - 1];
      LoggedKeysMeaning(front, id, externalId);
      assert log == front + [last];
      if (id, externalId) in PageKeys(last) {
        var o :| o in last.observations && (last.cycle, o.externalId) == (id, externalId);
        assert last in log;
      }
      if OnSavedPage(log, id, externalId) {
        var page, o :| page in log && page.cycle == id && o in page.observations && o.externalId == externalId;
        assert page in front || page == last;
      }
    }
  }

  lemma {:induction false} ObserveKeys(all: Observations, id: CycleId, page: seq<Observation>)
    ensures Observe(all, id, page).Keys == all.Keys + PageKeys(SavedPage(id, page))
    ensures forall k :: k in Observe(all, id, page) ==>
              (k in all && Observe(all, id, page)[k] == all[k])
              || (Observe(all, id, page)[k] in page && Observe(all, id, page)[k].externalId == k.1)
    decreases |page|
  {
    if page != [] {
      var more := all[(id, page[0].externalId) := page[0]];
      ObserveKeys(more, id, page[1..]);
      assert page == [page[0]] + page[1..];
      assert PageKeys(SavedPage(id, page)) ==
             {(id, page[0].externalId)} + PageKeys(SavedPage(id, page[1..]));
    }
  }

  /* ---- status reconciliation ---- */

  /** What the cycle saw, with the observation time. Go's zero time is 0: only later times register. */
  function Seen(all: Observations, id: CycleId): map<string, int> {
    map k | k in all && k.0 == id && all[k].observedAt > 0 :: k.1 := all[k].observedAt
  }

  function ReconciledRow(v: Vacancy, seen: map<string, int>): Vacancy {
    if v.source != "hh" then v
    else if v.externalId in seen then v.(isActive := true, collectedAt := seen[v.externalId])
    else v.(isActive := false)
  }

  function Reconciled(all: Vacancies, seen: map<string, int>): Vacancies {
    map k | k in all :: ReconciledRow(all[k], seen)
  }

  function Active(all: Vacancies): set<VacancyKey> {
    set k | k in all && all[k].isActive
  }

  /** What the scan of the observations collects: per vacancy, its latest positive observation time. */
  ghost predicate SeenBy(seen: map<string, int>, all: Observations, scanned: set<(CycleId, string)>, id: CycleId)
    requires scanned <= all.Keys
  {
    && (forall e :: e in seen ==> exists k :: k in scanned && SeenAt(all[k], k, id, e, seen[e]))
    && (forall k :: k in scanned && k.0 == id && all[k].observedAt > 0 ==>
          all[k].externalId in seen && all[k].observedAt <= seen[all[k].externalId])
  }

  predicate SeenAt(o: Observation, k: (CycleId, string), id: CycleId, e: string, at: int) {
    k.0 == id && o.externalId == e && o.observedAt == at && at > 0
  }

  lemma SeenByKeyed(seen: map<string, int>, all: Observations, id: CycleId)
    requires SeenBy(seen, all, all.Keys, id)
    requires forall k :: k in all ==> all[k].externalId == k.1
    ensures seen == Seen(all, id)
  {
    forall e | e in seen ensures e in Seen(all, id) && Seen(all, id)[e] == seen[e] {
      var k :| k in all.Keys && SeenAt(all[k], k, id, e, seen[e]);
      assert k == (id, e);
    }
    forall e | e in Seen(all, id) ensures e in seen {
      assert (id, e) in all;
    }
  }

  /** How many members of `s` have been visited. */
  function Visited(s: set<VacancyKey>, todo: set<VacancyKey>): nat {
    |s - todo|
  }

  lemma TakeOut(s: set<VacancyKey>, todo: set<VacancyKey>, k: VacancyKey)
    requires k in todo
    ensures Visited(s, todo - {k}) == Visited(s, todo) + One(k in s)
  {
    if k in s {
      assert s - (todo - {k}) == (s - todo) + {k};
    } else {
      assert s - (todo - {k}) == s - todo;
    }
  }

  /** Midway through the scan: the rows in `todo` are as before, the others are reconciled. */
  ghost predicate Midway(now: Vacancies, before: Vacancies, todo: set<VacancyKey>, seen: map<string, int>) {
    && (forall k :: k in now <==> k in before)
    && (forall k :: k in todo ==> k in before)
    && (forall k :: k in before ==> now[k] == if k in todo then before[k] else ReconciledRow(before[k], seen))
  }

  lemma MidwayStep(now: Vacancies, before: Vacancies, todo: set<VacancyKey>, seen: map<string, int>, k: VacancyKey)
    requires Midway(now, before, todo, seen) && k in todo
    ensures k in now && k in before && now[k] == before[k]
    ensures Midway(now[k := ReconciledRow(now[k], seen)], before, todo - {k}, seen)
    ensures ReconciledRow(now[k], seen) == now[k] ==> Midway(now, before, todo - {k}, seen)
  {
  }

  lemma MidwayStart(before: Vacancies, seen: map<string, int>)
    ensures Midway(before, before, before.Keys, seen)
  {
  }

  lemma MidwayEnd(now: Vacancies, before: Vacancies, seen: map<string, int>)
    requires Midway(now, before, {}, seen)
    ensures now == Reconciled(before, seen)
  {
  }

  predicate SeenHH(v: Vacancy, seen: map<string, int>) { v.source == "hh" && v.externalId in seen }
  predicate MissedHH(v: Vacancy, seen: map<string, int>) { v.source == "hh" && v.externalId !in seen }

  function Woken(all: Vacancies, seen: map<string, int>): set<VacancyKey> {
    set k | k in all && SeenHH(all[k], seen) && !all[k].isActive
  }
  function Retired(all: Vacancies, seen: map<string, int>): set<VacancyKey> {
    set k | k in all && MissedHH(all[k], seen) && all[k].isActive
  }
  function Kept(all: Vacancies, seen: map<string, int>): set<VacancyKey> {
    set k | k in all && SeenHH(all[k], seen) && all[k].isActive
  }

  /** Visiting one row moves exactly the counter its class asks for. */
  lemma VisitRow(all: Vacancies, seen: map<string, int>, todo: set<VacancyKey>, k: VacancyKey)
    requires k in todo && k in all
    ensures Visited(Woken(all, seen), todo - {k}) ==
            Visited(Woken(all, seen), todo) + One(SeenHH(all[k], seen) && !all[k].isActive)
    ensures Visited(Retired(all, seen), todo - {k}) ==
            Visited(Retired(all, seen), todo) + One(MissedHH(all[k], seen) && all[k].isActive)
    ensures Visited(Kept(all, seen), todo - {k}) ==
            Visited(Kept(all, seen), todo) + One(SeenHH(all[k], seen) && all[k].isActive)
  {
    TakeOut(Woken(all, seen), todo, k);
    TakeOut(Retired(all, seen), todo, k);
    TakeOut(Kept(all, seen), todo, k);
  }

  lemma VisitedEnds(all: Vacancies, seen: map<string, int>)
    ensures forall s :: s <= all.Keys ==> Visited(s, all.Keys) == 0 && Visited(s, {}) == |s|
    ensures Woken(all, seen) <= all.Keys && Retired(all, seen) <= all.Keys && Kept(all, seen) <= all.Keys
  {
    forall s | s <= all.Keys ensures Visited(s, all.Keys) == 0 && Visited(s, {}) == |s| {
      assert s - all.Keys == {} && s - {} == s;
    }
  }

  lemma ActiveSplit(all: Vacancies, seen: map<string, int>)
    ensures Active(Reconciled(all, seen)) == (Active(all) - Retired(all, seen)) + Woken(all, seen)
    ensures Woken(all, seen) !! (Active(all) - Retired(all, seen)) && Retired(all, seen) <= Active(all)
  {
    var after := Active(Reconciled(all, seen));
    forall k ensures k in after <==> (k in Active(all) && k !in Retired(all, seen)) || k in Woken(all, seen) {
    }
  }

  /** active after = active before + reactivated - deactivated, over all sources. */
  lemma ActiveBalance(all: Vacancies, seen: map<string, int>)
    ensures |Active(Reconciled(all, seen))| == |Active(all)| + |Woken(all, seen)| - |Retired(all, seen)|
  {
    var before, after := Active(all), Active(Reconciled(all, seen));
    var woken, retired := Woken(all, seen), Retired(all, seen);
    assert after == (before - retired) + woken && woken !! (before - retired) && retired <= before by {
      ActiveSplit(all, seen);
    }
    hide Active, Reconciled, Woken, Retired;
    assert |before - retired| == |before| - |retired|;
  }

  /** A second reconciliation flips nothing and changes nothing. */
  lemma ReconcileTwice(all: Vacancies, seen: map<string, int>)
    ensures Reconciled(Reconciled(all, seen), seen) == Reconciled(all, seen)
    ensures Woken(Reconciled(all, seen), seen) == {}
    ensures Retired(Reconciled(all, seen), seen) == {}
    ensures Kept(Reconciled(all, seen), seen) == Kept(all, seen) + Woken(all, seen)
  {
    assert Kept(Reconciled(all, seen), seen) == Kept(all, seen) + Woken(all, seen);
  }

  /* ---- listing pages ---- */

  /** A page write keeps a row whose content hash is unchanged and replaces any other. */
  function Upsert(all: Vacancies, v: Vacancy): Vacancies {
    var k := (v.source, v.externalId);
    if k in all && all[k].contentHash == v.contentHash then all[k := all[k].(collectedAt := v.collectedAt)]
    else all[k := v]
  }

  function UpsertAll(all: Vacancies, items: seq<Vacancy>): Vacancies {
    if items == [] then all else Upsert(UpsertAll(all, items[..|items| - 1]), items[|items| - 1])
  }

  type Cycles = map<CycleId, Cycle>
  type Partitions = map<CycleId, seq<Partition>>

  function StateIn(cycles: Cycles, partitions: Partitions, id: CycleId): CycleState {
    CycleState(if id in cycles then cycles[id] else ZeroCycle, if id in partitions then partitions[id] else [])
  }

  /** Every daily cycle's totals agree with its rows; ids are numbered within the cycle count. */
  predicate CyclesValid(cycles: Cycles, partitions: Partitions) {
    && (forall id :: id in cycles ==> 1 <= id.number <= |cycles|)
    && (forall id :: id in partitions ==> id in cycles)
    && (forall id :: id in cycles && cycles[id].scope == DailyDiscovery ==>
          Consistent(StateIn(cycles, partitions, id)))
  }

  /** The observations are exactly the vacancies of the saved pages. */
  predicate ObservationsValid(all: Observations, log: seq<SavedPage>) {
    && (forall k :: k in all ==> all[k].externalId == k.1)
    && all.Keys == LoggedKeys(log)
  }

  lemma SavedPageObserved(all: Observations, log: seq<SavedPage>, id: CycleId, page: seq<Observation>)
    requires ObservationsValid(all, log)
    ensures ObservationsValid(Observe(all, id, page), log + [SavedPage(id, page)])
  {
    ObserveKeys(all, id, page);
    assert (log + [SavedPage(id, page)])[..|log|] == log;
  }

  class Memory {
    var checkpoints: map<(string, string), string>
    var vacancies: Vacancies
    var cycles: Cycles
    var partitions: Partitions
    var observations: Observations
    /** Every page that SaveDiscoveryPage accepted. */
    ghost var pageLog: seq<SavedPage>

    constructor ()
      ensures Valid()
      ensures checkpoints == map[] && vacancies == map[] && cycles == map[] && partitions == map[]
      ensures observations == map[] && pageLog == []
    {
      checkpoints, vacancies, cycles, partitions := map[], map[], map[], map[];
      observations, pageLog := map[], [];
    }

    function CycleOf(id: CycleId): Cycle
      reads this`cycles, this`partitions
    {
      StateIn(cycles, partitions, id).cycle
    }

    function PartsOf(id: CycleId): seq<Partition>
      reads this`cycles, this`partitions
    {
      StateIn(cycles, partitions, id).parts
    }

    function State(id: CycleId): CycleState
      reads this`cycles, this`partitions
    {
      StateIn(cycles, partitions, id)
    }

    ghost predicate Valid()
      reads this`cycles, this`partitions, this`observations, this`pageLog
    {
      CyclesValid(cycles, partitions) && ObservationsValid(observations, pageLog)
    }

    method GetCheckpoint(source: string, scope: string) returns (cursor: string, found: bool)
      ensures found <==> (source, scope) in checkpoints
      ensures cursor == if found then checkpoints[(source, scope)] else ""
    {
      found := (source, scope) in checkpoints;
      cursor := if found then checkpoints[(source, scope)] else "";
    }

    predicate SameWindow(a: Cycle, b: Cycle) {
      a.source == b.source && a.scopeHash == b.scopeHash && a.cycleEnd == b.cycleEnd
    }

    method StartCycle(cycle: Cycle) returns (id: CycleId)
      requires Valid() && cycle.scope == AllIT
      modifies this`cycles
      ensures Valid() && id in cycles
      ensures (exists k :: k in old(cycles) && SameWindow(old(cycles)[k], cycle)) ==> id in old(cycles)
      ensures id in old(cycles) ==> cycles == old(cycles) && SameWindow(cycles[id], cycle)
      ensures id !in old(cycles) ==> cycles == old(cycles)[id := cycle.(status := Running)]
    {
      var todo := cycles.Keys;
      while todo != {}
        invariant todo <= cycles.Keys
        invariant forall k :: k in cycles && k !in todo ==> !SameWindow(cycles[k], cycle)
        decreases |todo|
      {
        var k :| k in todo;
        if SameWindow(cycles[k], cycle) {
          return k;
        }
        todo := todo - {k};
      }
      id := CycleId(false, |cycles| + 1);
      cycles := cycles[id := cycle.(status := Running)];
    }

    method UpdateCycleProgress(id: CycleId, completed: int) returns (ok: bool)
      modifies this`cycles
      ensures old(Valid()) && (id in old(cycles) ==> old(cycles)[id].scope == AllIT) ==> Valid()
      ensures ok == (id in old(cycles))
      ensures cycles == if ok then old(cycles)[id := old(cycles)[id].(completedPartitions := completed)] else old(cycles)
    {
      if id !in cycles {
        return false;
      }
      cycles := cycles[id := cycles[id].(completedPartitions := completed)];
      ok := true;
    }

    method CompleteCycle(id: CycleId, completed: int) returns (ok: bool)
      modifies this`cycles
      ensures old(Valid()) && (id in old(cycles) ==> old(cycles)[id].scope == AllIT) ==> Valid()
      ensures ok <==> id in old(cycles) && old(cycles)[id].partitionCount == completed
      ensures cycles ==
              if ok then old(cycles)[id := old(cycles)[id].(completedPartitions := completed, status := Finished)]
              else old(cycles)
    {
      if id !in cycles || completed != cycles[id].partitionCount {
        return false;
      }
      cycles := cycles[id := cycles[id].(completedPartitions := completed, status := Finished)];
      ok := true;
    }

    /** An existing cycle of the same source, date and method is resumed untouched. */
    method StartDiscoveryCycle(cycle: Cycle, rows: seq<Partition>) returns (id: CycleId)
      requires Valid()
      modifies this`cycles, this`partitions
      ensures id in cycles && cycles[id].scope == DailyDiscovery && cycles[id].source == cycle.source
      ensures cycles[id].cycleDate == cycle.cycleDate && cycles[id].methodVersion == cycle.methodVersion
      ensures id in old(cycles) ==> cycles == old(cycles) && partitions == old(partitions)
      ensures id !in old(cycles) ==>
                && id == CycleId(true, |old(cycles)| + 1)
                && cycles == old(cycles)[id := cycle.(scope := DailyDiscovery, status := Running, partitionCount := |rows|)]
                && partitions == old(partitions)[id := rows]
      ensures (exists k :: k in old(cycles) && SameDay(old(cycles)[k], cycle)) ==> id in old(cycles)
    {
      var todo := cycles.Keys;
      while todo != {}
        invariant todo <= cycles.Keys
        invariant forall k :: k in cycles && k !in todo ==> !SameDay(cycles[k], cycle)
        decreases |todo|
      {
        var k :| k in todo;
        if SameDay(cycles[k], cycle) {
          return k;
        }
        todo := todo - {k};
      }
      id := CycleId(true, |cycles| + 1);
      cycles := cycles[id := cycle.(scope := DailyDiscovery, status := Running, partitionCount := |rows|)];
      partitions := partitions[id := rows];
    }

    predicate SameDay(existing: Cycle, cycle: Cycle) {
      && existing.source == cycle.source && existing.scope == DailyDiscovery
      && existing.cycleDate == cycle.cycleDate && existing.methodVersion == cycle.methodVersion
    }

    method NextDiscoveryPartition(id: CycleId) returns (part: Optional<Partition>)
      ensures var parts := PartsOf(id);
              var i := FirstOpen(parts);
              part == if i == |parts| then None else Some(parts[i])
    {
      var parts := PartsOf(id);
      for i := 0 to |parts|
        invariant forall j :: 0 <= j < i ==> parts[j].status == Complete
      {
        if parts[i].status != Complete {
          return Some(parts[i]);
        }
      }
      part := None;
    }

    /** Refines `SetExpected`. A cycle with rows always has its cycle row. */
    method SetDiscoveryExpectedPages(id: CycleId, key: string, pages: int)
      requires id in partitions ==> id in cycles
      modifies this`cycles, this`partitions
      ensures State(id) == SetExpected(old(State(id)), key, pages)
      ensures cycles.Keys == old(cycles.Keys) && partitions.Keys == old(partitions.Keys) + {id}
      ensures forall k :: k in cycles && k != id ==> cycles[k] == old(cycles)[k]
      ensures forall k :: k in partitions && k != id ==> partitions[k] == old(partitions)[k]
    {
      var parts := PartsOf(id);
      for i := 0 to |parts|
        invariant |parts| == |old(PartsOf(id))|
        invariant SetExpectedFrom(CycleState(CycleOf(id), parts), key, pages, i) == SetExpected(old(State(id)), key, pages)
        invariant cycles.Keys == old(cycles.Keys)
        invariant forall k :: k in cycles && k != id ==> cycles[k] == old(cycles)[k]
        invariant partitions == old(partitions)
      {
        if parts[i].key != key || parts[i].nextPage != 0 {
          continue;
        }
        ghost var was := CycleState(CycleOf(id), parts);
        var delta := pages - parts[i].expectedPages;
        parts := parts[i := parts[i].(expectedPages := pages)];
        var cycle := CycleOf(id);
        cycle := cycle.(expectedPages := cycle.expectedPages + delta);
        if pages == 0 && parts[i].status != Complete {
          parts := parts[i := parts[i].(status := Complete)];
          cycle := cycle.(completedPartitions := cycle.completedPartitions + 1);
        }
        cycles := cycles[id := cycle];
        assert parts == SetExpectedAt(was, i, pages).parts;
      }
      partitions := partitions[id := parts];
    }

    /** Refines `Save`; a stale page changes nothing, any other page is observed. */
    method SaveDiscoveryPage(id: CycleId, part: Partition, page: seq<Observation>)
      requires id in partitions ==> id in cycles
      modifies this`cycles, this`partitions, this`observations, this`pageLog
      ensures State(id) == Save(old(State(id)), part.key, part.nextPage)
      ensures cycles.Keys == old(cycles.Keys)
      ensures forall k :: k in cycles && k != id ==> cycles[k] == old(cycles)[k]
      ensures forall k :: k in partitions && k != id ==> k in old(partitions) && partitions[k] == old(partitions)[k]
      ensures forall k :: k in old(partitions) ==> k in partitions
      ensures old(Stale(State(id), part.key, part.nextPage)) ==>
                observations == old(observations) && pageLog == old(pageLog)
      ensures !old(Stale(State(id), part.key, part.nextPage)) ==>
                && observations == Observe(old(observations), id, page)
                && pageLog == old(pageLog) + [SavedPage(id, page)]
    {
      var parts := PartsOf(id);
      ghost var at := IndexOf(parts, part.key);
      for i := 0 to |parts|
        invariant parts == old(PartsOf(id)) && i <= at
        invariant unchanged(this)
      {
        if parts[i].key != part.key {
          continue;
        }
        assert i == at;
        if part.nextPage < parts[i].nextPage {
          return;
        }
        parts := parts[i := parts[i].(nextPage := part.nextPage + 1)];
        if parts[i].nextPage == parts[i].expectedPages {
          parts := parts[i := parts[i].(status := Complete)];
          cycles := cycles[id := CycleOf(id).(completedPartitions := CycleOf(id).completedPartitions + 1)];
        } else {
          parts := parts[i := parts[i].(status := InProgress)];
        }
        cycles := cycles[id := CycleOf(id).(completedPages := CycleOf(id).completedPages + 1)];
        break;
      }
      partitions := partitions[id := parts];
      pageLog := pageLog + [SavedPage(id, page)];
      for j := 0 to |page|
        modifies this`observations
        invariant Observe(observations, id, page[j..]) == Observe(old(observations), id, page)
        invariant State(id) == Save(old(State(id)), part.key, part.nextPage)
      {
        observations := observations[(id, page[j].externalId) := page[j]];
        assert page[j..][1..] == page[j + 1..] && page[j..][0] == page[j];
      }
    }

    method CompleteDiscoveryCycle(id: CycleId) returns (ok: bool)
      modifies this`cycles
      ensures ok <==> id in old(cycles)
                      && old(cycles)[id].completedPages == old(cycles)[id].expectedPages
                      && old(cycles)[id].completedPartitions == old(cycles)[id].partitionCount
      ensures cycles == if ok then old(cycles)[id := old(cycles)[id].(status := Finished)] else old(cycles)
    {
      if id !in cycles || cycles[id].completedPages != cycles[id].expectedPages
         || cycles[id].completedPartitions != cycles[id].partitionCount {
        return false;
      }
      cycles := cycles[id := cycles[id].(status := Finished)];
      ok := true;
    }

    method CollectSeen(id: CycleId) returns (seen: map<string, int>)
      ensures SeenBy(seen, observations, observations.Keys, id)
    {
      seen := map[];
      var todo := observations.Keys;
      while todo != {}
        invariant todo <= observations.Keys
        invariant SeenBy(seen, observations, observations.Keys - todo, id)
        decreases |todo|
      {
        var k :| k in todo;
        todo := todo - {k};
        if k.0 == id {
          var o := observations[k];
          if o.observedAt > (if o.externalId in seen then seen[o.externalId] else 0) {
            seen := seen[o.externalId := o.observedAt];
            assert SeenAt(o, k, id, o.externalId, o.observedAt);
          }
        }
      }
      assert observations.Keys - todo == observations.Keys;
    }

    /** The scan over the vacancies, in any order. */
    method ReconcileRows(seen: map<string, int>) returns (woken: nat, retired: nat, kept: nat)
      modifies this`vacancies
      ensures vacancies == Reconciled(old(vacancies), seen)
      ensures woken == |Woken(old(vacancies), seen)|
      ensures retired == |Retired(old(vacancies), seen)|
      ensures kept == |Kept(old(vacancies), seen)|
    {
      hide Midway, Visited, Woken, Retired, Kept, Reconciled;
      woken, retired, kept := 0, 0, 0;
      ghost var before := vacancies;
      ghost var w, r, s := Woken(before, seen), Retired(before, seen), Kept(before, seen);
      var todo := vacancies.Keys;
      VisitedEnds(before, seen);
      MidwayStart(before, seen);
      while todo != {}
        invariant Midway(vacancies, before, todo, seen)
        invariant woken == Visited(w, todo) && retired == Visited(r, todo) && kept == Visited(s, todo)
        decreases todo
      {
        var k :| k in todo;
        MidwayStep(vacancies, before, todo, seen, k);
        VisitRow(before, seen, todo, k);
        todo := todo - {k};
        var item := vacancies[k];
        if item.source != "hh" {
          continue;
        }
        if item.externalId in seen {
          vacancies := vacancies[k := item.(isActive := true, collectedAt := seen[item.externalId])];
          if item.isActive {
            kept := kept + 1;
          } else {
            woken := woken + 1;
          }
          continue;
        }
        if item.isActive {
          vacancies := vacancies[k := item.(isActive := false)];
          retired := retired + 1;
        }
      }
      MidwayEnd(vacancies, before, seen);
    }

    /** Only a finished daily cycle may change statuses; then exactly the hh rows change. */
    method ReconcileDiscoveryStatuses(id: CycleId) returns (result: Optional<Reconciliation>)
      requires forall k :: k in observations ==> observations[k].externalId == k.1
      modifies this`vacancies
      ensures result.Some? <==> id in cycles && cycles[id].scope == DailyDiscovery && cycles[id].status == Finished
      ensures result.None? ==> vacancies == old(vacancies)
      ensures result.Some? ==>
                var seen := Seen(observations, id);
                && vacancies == Reconciled(old(vacancies), seen)
                && result.value == Reconciliation(
                     |Woken(old(vacancies), seen)|, |Retired(old(vacancies), seen)|, |Kept(old(vacancies), seen)|)
    {
      if id !in cycles || cycles[id].scope != DailyDiscovery || cycles[id].status != Finished {
        return None;
      }
      var seen := CollectSeen(id);
      SeenByKeyed(seen, observations, id);
      var woken, retired, kept := ReconcileRows(seen);
      result := Some(Reconciliation(woken, retired, kept));
    }

    /** Writes one listing page and its cursor; every item is counted once. */
    method SavePage(source: string, scope: string, cursor: string, items: seq<Vacancy>)
      returns (upserted: nat, unchangedRows: nat)
      modifies this`vacancies, this`checkpoints
      ensures upserted + unchangedRows == |items|
      ensures vacancies == UpsertAll(old(vacancies), items)
      ensures checkpoints == old(checkpoints)[(source, scope) := cursor]
    {
      upserted, unchangedRows := 0, 0;
      for i := 0 to |items|
        modifies this`vacancies
        invariant upserted + unchangedRows == i
        invariant vacancies == UpsertAll(old(vacancies), items[..i])
      {
        var item := items[i];
        var key := (item.source, item.externalId);
        assert items[..i + 1][..i] == items[..i];
        if key in vacancies && vacancies[key].contentHash == item.contentHash {
          unchangedRows := unchangedRows + 1;
          vacancies := vacancies[key := vacancies[key].(collectedAt := item.collectedAt)];
          continue;
        }
        vacancies := vacancies[key := item];
        upserted := upserted + 1;
      }
      assert items[..|items|] == items;
      checkpoints := checkpoints[(source, scope) := cursor];
    }

    method MarkVacancyInactive(source: string, externalId: string)
      modifies this`vacancies
      ensures vacancies == map k | k in old(vacancies) ::
                var v := old(vacancies)[k];
                if v.source == source && v.externalId == externalId then v.(isActive := false) else v
    {
      vacancies := map k | k in vacancies ::
        var v := vacancies[k];
        if v.source == source && v.externalId == externalId then v.(isActive := false) else v;
    }
  }
}
