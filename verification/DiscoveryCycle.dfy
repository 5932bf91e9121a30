/** One daily discovery cycle: its partition rows and the cached totals that summarise them.
    The functions are the store's updates as values; the class `MemoryStore.Memory` refines them. */
module DiscoveryCycle {
  import opened Sums

  datatype PartStatus = Pending | InProgress | Complete

  datatype Partition = Partition(
    key: string, roleId: string, dateFrom: nat, dateTo: nat,
    expectedPages: int, nextPage: int, status: PartStatus)

  datatype Scope = AllIT | DailyDiscovery

  datatype CycleStatus = Running | Finished

  datatype Cycle = Cycle(
    source: string, scope: Scope, scopeHash: string, cycleEnd: nat, cycleDate: int, methodVersion: string,
    partitionCount: int, completedPartitions: int, expectedPages: int, completedPages: int,
    status: CycleStatus)

  datatype CycleState = CycleState(cycle: Cycle, parts: seq<Partition>)

  function NextOf(p: Partition): int { p.nextPage }
  function ExpectedOf(p: Partition): int { p.expectedPages }
  function CompleteOf(p: Partition): int { One(p.status == Complete) }

  predicate DistinctKeys(parts: seq<Partition>) {
    forall i, j :: 0 <= i < j < |parts| ==> parts[i].key != parts[j].key
  }

  predicate Settled(p: Partition) {
    p.status == Complete <==> p.nextPage == p.expectedPages
  }

  /** The cached totals agree with the rows, and a row is complete exactly at its last page. */
  predicate Consistent(cs: CycleState) {
    && DistinctKeys(cs.parts)
    && (forall i :: 0 <= i < |cs.parts| ==> Settled(cs.parts[i]))
    && cs.cycle.partitionCount == |cs.parts|
    && cs.cycle.completedPages == Sum(cs.parts, NextOf)
    && cs.cycle.expectedPages == Sum(cs.parts, ExpectedOf)
    && cs.cycle.completedPartitions == Sum(cs.parts, CompleteOf)
  }

  predicate Bounded(cs: CycleState) {
    forall i :: 0 <= i < |cs.parts| ==> 0 <= cs.parts[i].nextPage <= cs.parts[i].expectedPages
  }

  function IndexOf(parts: seq<Partition>, key: string): (i: nat)
    ensures i <= |parts|
    ensures i < |parts| ==> parts[i].key == key
    ensures forall j :: 0 <= j < i ==> parts[j].key != key
  {
    if parts == [] || parts[0].key == key then 0 else 1 + IndexOf(parts[1..], key)
  }

  lemma IndexOfUnique(parts: seq<Partition>, i: nat)
    requires i < |parts| && DistinctKeys(parts)
    ensures IndexOf(parts, parts[i].key) == i
  {
  }

  /* ---- NextDiscoveryPartition ---- */

  function FirstOpen(parts: seq<Partition>): (i: nat)
    ensures i <= |parts|
    ensures i < |parts| ==> parts[i].status != Complete
    ensures forall j :: 0 <= j < i ==> parts[j].status == Complete
  {
    if parts == [] || parts[0].status != Complete then 0 else 1 + FirstOpen(parts[1..])
  }

  /* ---- SetDiscoveryExpectedPages ---- */

  function SetExpectedAt(cs: CycleState, i: nat, pages: int): CycleState
    requires i < |cs.parts|
  {
    var p := cs.parts[i];
    var closes := pages == 0 && p.status != Complete;
    CycleState(
      cs.cycle.(expectedPages := cs.cycle.expectedPages + (pages - p.expectedPages),
                completedPartitions := cs.cycle.completedPartitions + One(closes)),
      cs.parts[i := p.(expectedPages := pages, status := if closes then Complete else p.status)])
  }

  /** The loop visits every row of that key that is still at page zero. */
  function SetExpectedFrom(cs: CycleState, key: string, pages: int, i: nat): (r: CycleState)
    requires i <= |cs.parts|
    ensures |r.parts| == |cs.parts|
    decreases |cs.parts| - i
  {
    if i == |cs.parts| then cs
    else
      var p := cs.parts[i];
      SetExpectedFrom(
        if p.key != key || p.nextPage != 0 then cs else SetExpectedAt(cs, i, pages), key, pages, i + 1)
  }

  function SetExpected(cs: CycleState, key: string, pages: int): CycleState {
    SetExpectedFrom(cs, key, pages, 0)
  }

  lemma {:induction false} SetExpectedSkips(cs: CycleState, key: string, pages: int, i: nat)
    requires i <= |cs.parts|
    requires forall j :: i <= j < |cs.parts| ==> cs.parts[j].key != key || cs.parts[j].nextPage != 0
    ensures SetExpectedFrom(cs, key, pages, i) == cs
    decreases |cs.parts| - i
  {
    if i < |cs.parts| {
      SetExpectedSkips(cs, key, pages, i + 1);
    }
  }

  lemma {:induction false} SetExpectedReaches(cs: CycleState, key: string, pages: int, i: nat, k: nat)
    requires i <= k < |cs.parts| && DistinctKeys(cs.parts)
    requires cs.parts[k].key == key && cs.parts[k].nextPage == 0
    ensures SetExpectedFrom(cs, key, pages, i) == SetExpectedAt(cs, k, pages)
    decreases k - i
  {
    if i == k {
      SetExpectedSkips(SetExpectedAt(cs, k, pages), key, pages, k + 1);
    } else {
      SetExpectedReaches(cs, key, pages, i + 1, k);
    }
  }

  /** With distinct keys the loop touches at most the one row it was asked about. */
  lemma SetExpectedOne(cs: CycleState, k: nat, pages: int)
    requires k < |cs.parts| && DistinctKeys(cs.parts)
    ensures SetExpected(cs, cs.parts[k].key, pages) ==
            if cs.parts[k].nextPage == 0 then SetExpectedAt(cs, k, pages) else cs
  {
    if cs.parts[k].nextPage == 0 {
      SetExpectedReaches(cs, cs.parts[k].key, pages, 0, k);
    } else {
      SetExpectedSkips(cs, cs.parts[k].key, pages, 0);
    }
  }

  /* ---- SaveDiscoveryPage ---- */

  function SaveAt(cs: CycleState, i: nat, page: int): CycleState
    requires i < |cs.parts|
  {
    var closes := page + 1 == cs.parts[i].expectedPages;
    CycleState(
      cs.cycle.(completedPages := cs.cycle.completedPages + 1,
                completedPartitions := cs.cycle.completedPartitions + One(closes)),
      cs.parts[i := cs.parts[i].(nextPage := page + 1, status := if closes then Complete else InProgress)])
  }

  /** The page was saved before: the whole call is a no-op. */
  predicate Stale(cs: CycleState, key: string, page: int) {
    var i := IndexOf(cs.parts, key);
    i < |cs.parts| && page < cs.parts[i].nextPage
  }

  function Save(cs: CycleState, key: string, page: int): CycleState {
    var i := IndexOf(cs.parts, key);
    if i == |cs.parts| || Stale(cs, key, page) then cs else SaveAt(cs, i, page)
  }

  /* ---- what the updates keep ---- */

  lemma RowUpdateSums(cs: CycleState, i: nat, p: Partition)
    requires i < |cs.parts|
    ensures Sum(cs.parts[i := p], NextOf) == Sum(cs.parts, NextOf) - cs.parts[i].nextPage + p.nextPage
    ensures Sum(cs.parts[i := p], ExpectedOf) == Sum(cs.parts, ExpectedOf) - cs.parts[i].expectedPages + p.expectedPages
    ensures Sum(cs.parts[i := p], CompleteOf) == Sum(cs.parts, CompleteOf) - CompleteOf(cs.parts[i]) + CompleteOf(p)
  {
    SumUpdate(cs.parts, i, p, NextOf);
    SumUpdate(cs.parts, i, p, ExpectedOf);
    SumUpdate(cs.parts, i, p, CompleteOf);
  }

  /** Saving page `page` of row `i` keeps the totals right exactly when the page is an old one or is the
      next page of a row that is still open. Skipping ahead or saving into a complete row breaks them. */
  lemma SaveKeepsIff(cs: CycleState, i: nat, page: int)
    requires i < |cs.parts| && Consistent(cs)
    ensures Consistent(Save(cs, cs.parts[i].key, page)) <==>
            (page < cs.parts[i].nextPage || (page == cs.parts[i].nextPage && cs.parts[i].status != Complete))
  {
    IndexOfUnique(cs.parts, i);
    if page >= cs.parts[i].nextPage {
      var after := SaveAt(cs, i, page);
      RowUpdateSums(cs, i, after.parts[i]);
      assert after.parts == cs.parts[i := after.parts[i]];
    }
  }

  /** Reconciling the page count of row `i` keeps the totals right exactly when the row has left page
      zero (then it is a no-op), is still open, or is told zero pages again. */
  lemma SetExpectedKeepsIff(cs: CycleState, i: nat, pages: int)
    requires i < |cs.parts| && Consistent(cs)
    ensures Consistent(SetExpected(cs, cs.parts[i].key, pages)) <==>
            (cs.parts[i].nextPage != 0 || cs.parts[i].status != Complete || pages == 0)
  {
    SetExpectedOne(cs, i, pages);
    if cs.parts[i].nextPage == 0 {
      var after := SetExpectedAt(cs, i, pages);
      RowUpdateSums(cs, i, after.parts[i]);
      assert after.parts == cs.parts[i := after.parts[i]];
    }
  }

  /** Saving an already saved page changes nothing at all. */
  lemma SaveTwice(cs: CycleState, key: string, page: int)
    ensures Save(Save(cs, key, page), key, page) == Save(cs, key, page)
  {
    var i := IndexOf(cs.parts, key);
    if i < |cs.parts| && !Stale(cs, key, page) {
      var after := Save(cs, key, page);
      assert forall j :: 0 <= j < i ==> after.parts[j].key != key;
      assert after.parts[i].key == key;
      assert IndexOf(after.parts, key) == i;
    }
  }

  /** When no row is open, the totals say "complete": CompleteDiscoveryCycle cannot refuse. */
  lemma DrainedIsComplete(cs: CycleState)
    requires Consistent(cs) && FirstOpen(cs.parts) == |cs.parts|
    ensures cs.cycle.completedPages == cs.cycle.expectedPages
    ensures cs.cycle.completedPartitions == cs.cycle.partitionCount
  {
    SumSame(cs.parts, NextOf, ExpectedOf);
    SumBounds(cs.parts, CompleteOf, 1, 1);
  }

  /** And conversely the totals only say "complete" when every row is. */
  lemma CompleteIsDrained(cs: CycleState)
    requires Consistent(cs) && cs.cycle.completedPartitions == cs.cycle.partitionCount
    ensures FirstOpen(cs.parts) == |cs.parts|
  {
    var i := FirstOpen(cs.parts);
    if i < |cs.parts| {
      var p := cs.parts[i].(status := Complete);
      SumUpdate(cs.parts, i, p, CompleteOf);
      SumBounds(cs.parts[i := p], CompleteOf, 0, 1);
    }
  }
}
