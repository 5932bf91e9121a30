/** Runner.Run: one checkpointed ingest run over one search scope. */
module Runner {
  import opened Decimal
  import opened Sums
  import opened Checkpoint
  import opened MemoryStore

  const MAX_SEARCH_RESULTS := 2000
  const MAX_PER_PAGE := 100
  const HARD_MAX_PAGES := 100

  /** What became of one search hit. */
  datatype Item =
    | FetchFailed
    | Disappeared(externalId: string, markedInactive: bool)
    | BadDetail
    | OutOfScope
    | NotNormalized
    | Ready(vacancy: Vacancy)

  /** The item does not keep its page from being committed. */
  predicate Handled(x: Item) {
    x.Ready? || x.OutOfScope? || (x.Disappeared? && x.markedInactive)
  }

  datatype Search = SearchFailed | Page(pages: int, items: seq<Item>)

  /** HH's answer to the n-th page request of the run, and whether the n-th page save works. */
  datatype World = World(search: nat -> Search, saveWorks: nat -> bool)

  datatype Status = Success | Partial | Failed

  datatype Stats = Stats(fetched: nat, upserted: nat, unchangedRows: nat, excluded: nat, errors: nat, pages: nat)

  datatype RunResult = RunResult(status: Status, stats: Stats, completed: bool)

  /** Where a run spent what did not end up in a committed page. */
  datatype Leftover = Leftover(fatal: nat, lost: nat)

  /** The most pages that start below HH's depth of 2000 results, the hard limit and the request. */
  function ResolvePageLimit(requested: int, perPage: int): (limit: nat)
    ensures limit <= HARD_MAX_PAGES && (requested > 0 ==> limit <= requested)
    ensures limit >= 1 && (limit - 1) * PageSize(perPage) < MAX_SEARCH_RESULTS
    ensures limit == HARD_MAX_PAGES || limit == requested || limit * PageSize(perPage) >= MAX_SEARCH_RESULTS
  {
    var size := PageSize(perPage);
    var depth := (MAX_SEARCH_RESULTS + size - 1) / size;
    var limit := if depth < HARD_MAX_PAGES then depth else HARD_MAX_PAGES;
    var result := if requested > 0 && requested < limit then requested else limit;
    DepthPages(size, result);
    result
  }

  lemma DepthPages(size: nat, n: nat)
    requires 1 <= size <= MAX_PER_PAGE
    ensures var depth := (MAX_SEARCH_RESULTS + size - 1) / size;
            && depth >= 1 && depth * size >= MAX_SEARCH_RESULTS
            && (1 <= n <= depth ==> (n - 1) * size < MAX_SEARCH_RESULTS)
  {
    var depth := (MAX_SEARCH_RESULTS + size - 1) / size;
    DividedUp(MAX_SEARCH_RESULTS, size);
    if depth < 1 {
      Scaled(depth, 0, size);
    }
    if 1 <= n <= depth {
      Scaled(n - 1, depth - 1, size);
    }
  }

  lemma Scaled(a: int, b: int, size: nat)
    requires a <= b
    ensures a * size <= b * size
  {
  }

  /** The requested page size where HH allows it, else the largest. */
  function PageSize(perPage: int): (size: nat)
    ensures 1 <= size <= 100 && (1 <= perPage <= 100 ==> size == perPage) && (size != perPage ==> size == 100)
  {
    if perPage <= 0 || perPage > MAX_PER_PAGE then MAX_PER_PAGE else perPage
  }

  /** Every fetched item is an error, out of scope, or a write; a committed write is upserted or unchanged. */
  predicate Conserved(s: Stats, left: Leftover) {
    s.fetched + left.fatal == s.upserted + s.unchangedRows + s.excluded + s.errors + left.lost
  }

  function ReadyCount(items: seq<Item>): nat {
    if items == [] then 0 else ReadyCount(items[..|items| - 1]) + if items[|items| - 1].Ready? then 1 else 0
  }

  /** The vacancies that are ready to be written, in page order. */
  function ReadyOf(items: seq<Item>): seq<Vacancy> {
    if items == [] then []
    else ReadyOf(items[..|items| - 1]) + if items[|items| - 1].Ready? then [items[|items| - 1].vacancy] else []
  }

  function Inactivated(all: Vacancies, externalId: string): Vacancies {
    map k | k in all :: if all[k].source == "hh" && all[k].externalId == externalId then all[k].(isActive := false) else all[k]
  }

  /** The vacancies HH says have disappeared are marked inactive, whatever becomes of the page. */
  function Marked(all: Vacancies, items: seq<Item>): Vacancies {
    if items == [] then all
    else
      var last, before := items[|items| - 1], Marked(all, items[..|items| - 1]);
      if last.Disappeared? && last.markedInactive then Inactivated(before, last.externalId) else before
  }

  /** What the request for page `n` does to the stored vacancies: ready ones are written only if the page is committed. */
  function PageEffect(all: Vacancies, world: World, n: nat): Vacancies {
    match world.search(n)
    case SearchFailed => all
    case Page(_, items) =>
      if Bad(world, n) then Marked(all, items) else UpsertAll(Marked(all, items), ReadyOf(items))
  }

  /** What the first `asked` requests of a run do. */
  function Effect(all: Vacancies, world: World, asked: nat): Vacancies {
    if asked == 0 then all else PageEffect(Effect(all, world, asked - 1), world, asked - 1)
  }

  lemma {:induction false} ReadyCounted(items: seq<Item>)
    ensures |ReadyOf(items)| == ReadyCount(items)
  {
    if items != [] {
      ReadyCounted(items[..|items| - 1]);
    }
  }

  /** What the request for page `n` leaves uncommitted: a failure counted without an item, writes never saved. */
  function LeftBy(world: World, n: nat): Leftover {
    match world.search(n)
    case SearchFailed => Leftover(1, 0)
    case Page(_, items) =>
      if !PageFetchedWell(world.search(n)) then Leftover(0, ReadyCount(items))
      else if !world.saveWorks(n) then Leftover(1, ReadyCount(items))
      else Leftover(0, 0)
  }

  /** The request for page `n` cannot end in a commit. */
  predicate Bad(world: World, n: nat) {
    !PageFetchedWell(world.search(n)) || !world.saveWorks(n)
  }

  /** The page ends its scope: it is empty, or it is the last one HH reports, counting no more than `limit` pages. */
  predicate Ends(s: Search, page: int, limit: nat) {
    && s.Page?
    && (|s.items| == 0 || (s.pages > 0 && (page + 1 >= s.pages || page + 1 >= limit)))
  }

  /** The item loop of one page. */
  method FetchItems(store: Memory, items: seq<Item>, before: Stats)
    returns (stats: Stats, writes: seq<Vacancy>, pageOk: bool)
    modifies store`vacancies
    ensures stats.fetched == before.fetched + |items|
    ensures stats.excluded + stats.errors + |writes| == before.excluded + before.errors + |items|
    ensures writes == ReadyOf(items) && |writes| == ReadyCount(items)
    ensures store.vacancies == Marked(old(store.vacancies), items)
    ensures stats.upserted == before.upserted && stats.unchangedRows == before.unchangedRows && stats.pages == before.pages
    ensures before.errors <= stats.errors && before.excluded <= stats.excluded
    ensures pageOk <==> forall x :: x in items ==> Handled(x)
    ensures pageOk ==> forall x :: x in items && x.Ready? ==> x.vacancy in writes
    ensures !pageOk ==> stats.errors > before.errors
  {
    stats, writes, pageOk := before, [], true;
    for i := 0 to |items|
      invariant stats.fetched == before.fetched + i
      invariant stats.excluded + stats.errors + |writes| == before.excluded + before.errors + i
      invariant writes == ReadyOf(items[..i])
      invariant store.vacancies == Marked(old(store.vacancies), items[..i])
      invariant stats.upserted == before.upserted && stats.unchangedRows == before.unchangedRows && stats.pages == before.pages
      invariant before.errors <= stats.errors && before.excluded <= stats.excluded
      invariant pageOk <==> forall k :: 0 <= k < i ==> Handled(items[k])
      invariant !pageOk ==> stats.errors > before.errors
      invariant forall k :: 0 <= k < i && items[k].Ready? ==> items[k].vacancy in writes
    {
      assert items[..i + 1][..i] == items[..i];
      stats := stats.(fetched := stats.fetched + 1);
      match items[i]
      case FetchFailed => stats, pageOk := stats.(errors := stats.errors + 1), false;
      case Disappeared(externalId, marked) =>
        stats := stats.(errors := stats.errors + 1);
        if marked {
          store.MarkVacancyInactive("hh", externalId);
        } else {
          pageOk := false;
        }
      case BadDetail => stats, pageOk := stats.(errors := stats.errors + 1), false;
      case OutOfScope => stats := stats.(excluded := stats.excluded + 1);
      case NotNormalized => stats, pageOk := stats.(errors := stats.errors + 1), false;
      case Ready(vacancy) => writes := writes + [vacancy];
    }
    assert items[..|items|] == items;
    ReadyCounted(items);
  }

  ghost function Stored(store: Memory, scope: string): string
    reads store`checkpoints
  {
    if ("hh", scope) in store.checkpoints then store.checkpoints[("hh", scope)] else ""
  }

  /** The stored cursor names the next page of the log of committed pages. */
  ghost predicate CursorAgrees(store: Memory, scope: string, log: seq<Commit>)
    reads store`checkpoints
  {
    && InOrder(log)
    && ParseCursorPage(Stored(store, scope)) == Number(NextPage(log))
  }

  /** No other scope's checkpoint moved. */
  ghost predicate SameOthers(a: map<(string, string), string>, b: map<(string, string), string>, scope: string) {
    forall k :: k != ("hh", scope) ==> (k in a <==> k in b) && (k in b ==> b[k] == a[k])
  }

  datatype PageResult = NextPageReady | RunComplete | NotCommitted | Fatal

  /** One page: search, items, decision, save. */
  method RunPage(store: Memory, scope: string, perPage: int, pageIdx: nat, n: nat, world: World, before: Stats,
                 ghost left0: Leftover, ghost log0: seq<Commit>)
    returns (stats: Stats, result: PageResult, next: nat, hasWrites: bool, ghost left: Leftover, ghost log: seq<Commit>)
    requires pageIdx < ResolvePageLimit(0, perPage)
    requires Conserved(before, left0) && before.errors >= left0.fatal
    modifies store`vacancies, store`checkpoints
    ensures Conserved(stats, left) && stats.errors >= left.fatal
    ensures left == Leftover(left0.fatal + LeftBy(world, n).fatal, left0.lost + LeftBy(world, n).lost)
    ensures result.NextPageReady? || result.RunComplete? <==> !Bad(world, n)
    ensures result.RunComplete? <==> !Bad(world, n) && Ends(world.search(n), pageIdx, ResolvePageLimit(0, perPage))
    ensures result.NextPageReady? ==> next == pageIdx + 1
    ensures store.vacancies == PageEffect(old(store.vacancies), world, n)
    ensures result.NotCommitted? && world.search(n).Page? ==> stats.errors > 0 && (hasWrites <==> ReadyCount(world.search(n).items) > 0)
    ensures stats.pages == before.pages + (if world.search(n).Page? then 1 else 0)
    ensures stats.fetched == before.fetched + (if world.search(n).Page? then |world.search(n).items| else 0)
    ensures old(CursorAgrees(store, scope, log0)) && NextPage(log0) == pageIdx ==>
              CursorAgrees(store, scope, log) && log0 <= log
              && (result.NextPageReady? || result.RunComplete? ==>
                    next == NextPage(log) && log == log0 + [Commit(pageIdx, result.RunComplete?)])
              && (result.NotCommitted? || result.Fatal? ==> log == log0)
    ensures SameOthers(old(store.checkpoints), store.checkpoints, scope)
    ensures result.Fatal? || result.NotCommitted? ==> store.checkpoints == old(store.checkpoints)
    ensures result.Fatal? <==> world.search(n).SearchFailed? || (PageFetchedWell(world.search(n)) && !world.saveWorks(n))
    ensures result.NotCommitted? <==> world.search(n).Page? && !PageFetchedWell(world.search(n))
    ensures result.Fatal? ==> stats.errors > 0
  {
    hide CursorAgrees, SameOthers, InOrder, ReadyCount, ReadyOf, Marked, UpsertAll, ParseCursorPage, FormatCursor;
    SameOthersSelf(store.checkpoints, scope);
    stats, left, log, next, hasWrites := before, left0, log0, pageIdx, false;
    var search := world.search(n);
    if search.SearchFailed? {
      stats := stats.(errors := stats.errors + 1);
      left := left.(fatal := left.fatal + 1);
      result := Fatal;
      return;
    }
    stats := stats.(pages := stats.pages + 1);
    var limit := ResolvePageLimit(0, perPage);
    var total := if search.pages < limit then search.pages else limit;
    var writes, pageOk;
    stats, writes, pageOk := FetchItems(store, search.items, stats);
    hasWrites := writes != [];
    var outcome := PageOutcome(pageOk, pageIdx, total, |search.items|);
    var dec := Decide(outcome);
    if !dec.advance {
      left := left.(lost := left.lost + |writes|);
      result := NotCommitted;
      return;
    }
    if !world.saveWorks(n) {
      stats := stats.(errors := stats.errors + 1);
      left := Leftover(left.fatal + 1, left.lost + |writes|);
      result := Fatal;
      return;
    }
    var up, un;
    up, un, next, log := CommitPage(store, scope, outcome, writes, log0);
    stats := stats.(upserted := stats.upserted + up, unchangedRows := stats.unchangedRows + un);
    result := if dec.terminal then RunComplete else NextPageReady;
  }

  /** Saving a page whose decision is to advance. */
  method CommitPage(store: Memory, scope: string, outcome: PageOutcome, writes: seq<Vacancy>, ghost log0: seq<Commit>)
    returns (up: nat, un: nat, next: nat, ghost log: seq<Commit>)
    requires Decide(outcome).advance && 0 <= outcome.currentPage < HARD_MAX_PAGES
    modifies store`vacancies, store`checkpoints
    ensures up + un == |writes|
    ensures next == if Decide(outcome).terminal then 0 else outcome.currentPage + 1
    ensures store.vacancies == UpsertAll(old(store.vacancies), writes)
    ensures SameOthers(old(store.checkpoints), store.checkpoints, scope)
    ensures old(CursorAgrees(store, scope, log0)) && NextPage(log0) == outcome.currentPage ==>
              && CursorAgrees(store, scope, log) && next == NextPage(log)
              && log == log0 + [Commit(outcome.currentPage, Decide(outcome).terminal)]
  {
    var dec := Decide(outcome);
    log := log0 + [Commit(outcome.currentPage, dec.terminal)];
    if InOrder(log0) && NextPage(log0) == outcome.currentPage {
      DecisionFollowsLog(outcome, log0);
    }
    hide ParseCursorPage, InOrder;
    next := if dec.terminal then 0 else outcome.currentPage + 1;
    up, un := store.SavePage("hh", scope, dec.nextCursor, writes);
  }

  /** All items of the page could be handled. */
  predicate PageFetchedWell(s: Search) {
    s.Page? && forall x :: x in s.items ==> Handled(x)
  }

  /** No page of the world holds more than `size` items. */
  ghost predicate PagesAtMost(world: World, size: nat) {
    forall n :: world.search(n).Page? ==> |world.search(n).items| <= size
  }

  /** What the run fetched is bounded by its pages and the page size. */
  ghost predicate Spent(s: Stats, world: World, size: nat) {
    && (PagesAtMost(world, size) ==> s.fetched <= size * s.pages)
    && (PagesAtMost(world, 0) ==> s.fetched == 0)
    && (s.pages == 0 ==> s.fetched == 0)
  }

  lemma SpentPage(a: Stats, b: Stats, world: World, size: nat, n: nat)
    requires Spent(a, world, size)
    requires b.pages == a.pages + (if world.search(n).Page? then 1 else 0)
    requires b.fetched == a.fetched + (if world.search(n).Page? then |world.search(n).items| else 0)
    ensures Spent(b, world, size)
  {
    assert size * (a.pages + 1) == size * a.pages + size;
  }

  /** Pages 0 .. asked - 1 were requested, all but the last could be committed, `pages` of them were answered,
      and `left` is what the last one left uncommitted. */
  ghost predicate Asked(world: World, asked: nat, pages: nat, left: Leftover) {
    && (forall n :: 0 <= n < asked - 1 ==> !Bad(world, n))
    && left == (if asked == 0 then Leftover(0, 0) else LeftBy(world, asked - 1))
    && pages == (if asked > 0 && world.search(asked - 1).SearchFailed? then asked - 1 else asked)
  }

  predicate LastGood(world: World, asked: nat) {
    asked == 0 || !Bad(world, asked - 1)
  }

  lemma AskedNone(world: World)
    ensures Asked(world, 0, 0, Leftover(0, 0)) && LastGood(world, 0)
  {
  }

  lemma AskedMore(world: World, n: nat, pages: nat, left: Leftover)
    requires Asked(world, n, n, Leftover(0, 0)) && LastGood(world, n)
    requires pages == n + (if world.search(n).Page? then 1 else 0) && left == LeftBy(world, n)
    ensures Asked(world, n + 1, pages, left)
    ensures LastGood(world, n + 1) ==> pages == n + 1 && left == Leftover(0, 0)
  {
  }

  /** The run completed exactly if its last requested page could be committed and ends the scope; no page before it
      does. */
  ghost predicate EndsRight(world: World, start: int, asked: nat, completed: bool, limit: nat) {
    && (completed <==> asked > 0 && LastGood(world, asked) && Ends(world.search(asked - 1), start + asked - 1, limit))
    && forall n :: 0 <= n < asked - 1 ==> !Ends(world.search(n), start + n, limit)
  }

  /** A page that could not be committed is a partial success only if it was answered and some of its items were ready
      to be written, but others could not be handled. */
  function BrokenStatus(world: World, n: nat): Status {
    match world.search(n)
    case SearchFailed => Failed
    case Page(_, items) => if !PageFetchedWell(world.search(n)) && ReadyCount(items) > 0 then Partial else Failed
  }

  /** Failed on an unreadable cursor; the status of the page that could not be committed; otherwise a success, partial if
      any item failed. */
  predicate RightStatus(readable: bool, world: World, asked: nat, errors: nat, status: Status) {
    && status == (if !readable then Failed
                  else if asked > 0 && !LastGood(world, asked) then BrokenStatus(world, asked - 1)
                  else if errors > 0 then Partial else Success)
    && (status == Success ==> readable && errors == 0 && LastGood(world, asked))
  }

  lemma StatusHolds(world: World, asked: nat, errors: nat, end: LoopEnd)
    requires end.Broken? <==> !LastGood(world, asked)
    requires end.Broken? ==> asked > 0 && end.status == BrokenStatus(world, asked - 1)
    ensures RightStatus(true, world, asked, errors,
                        if end.Broken? then end.status else if errors > 0 then Partial else Success)
    ensures RightStatus(false, world, 0, 0, Failed)
    ensures end.Broken? ==> end.status != Success
    ensures LastGood(world, 0)
  {
  }

  datatype LoopEnd = Completed | AtLimit | Broken(status: Status)

  /** One turn of the loop: the page, and whether the loop ends with it. */
  method NextPageOf(store: Memory, scope: string, size: nat, pageIdx: nat, n: nat, world: World, before: Stats,
                    ghost log0: seq<Commit>)
    returns (stats: Stats, end: LoopEnd, next: nat, ghost left: Leftover, ghost log: seq<Commit>)
    requires 1 <= size <= MAX_PER_PAGE && pageIdx < ResolvePageLimit(0, size)
    requires Conserved(before, Leftover(0, 0)) && Spent(before, world, size)
    requires Asked(world, n, n, Leftover(0, 0)) && LastGood(world, n) && before.pages == n
    modifies store`vacancies, store`checkpoints
    ensures Conserved(stats, left) && Asked(world, n + 1, stats.pages, left) && Spent(stats, world, size)
    ensures end.Broken? <==> !LastGood(world, n + 1)
    ensures end.Broken? ==> end.status == BrokenStatus(world, n)
    ensures !end.Broken? ==> stats.pages == n + 1 && left == Leftover(0, 0)
    ensures end.Completed? <==> LastGood(world, n + 1) && Ends(world.search(n), pageIdx, ResolvePageLimit(0, size))
    ensures end.AtLimit? ==> next == pageIdx + 1
    ensures store.vacancies == PageEffect(old(store.vacancies), world, n)
    ensures old(CursorAgrees(store, scope, log0)) && NextPage(log0) == pageIdx ==>
              && CursorAgrees(store, scope, log) && log0 <= log
              && (end.AtLimit? ==> next == NextPage(log))
              && (end.Completed? ==> log0 < log && log[|log| - 1].terminal && NextPage(log) == 0)
    ensures SameOthers(old(store.checkpoints), store.checkpoints, scope)
  {
    hide ResolvePageLimit, Spent, SameOthers, PageFetchedWell, LeftBy, Conserved, CursorAgrees, Asked, Ends, ReadyCount, PageEffect;
    var page, hasWrites;
    stats, page, next, hasWrites, left, log := RunPage(store, scope, size, pageIdx, n, world, before, Leftover(0, 0), log0);
    SpentPage(before, stats, world, size, n);
    AskedMore(world, n, stats.pages, left);
    match page
    case Fatal => end := Broken(Failed);
    case NotCommitted => end := Broken(if stats.errors > 0 && !hasWrites then Failed else Partial);
    case RunComplete => end := Completed;
    case NextPageReady => end := AtLimit;
  }

  /** The page loop, started at the stored cursor. */
  method RunPages(store: Memory, scope: string, start: nat, pageLimit: nat, size: nat, world: World, ghost log0: seq<Commit>)
    returns (stats: Stats, end: LoopEnd, asked: nat, ghost left: Leftover, ghost log: seq<Commit>)
    requires 1 <= size <= MAX_PER_PAGE
    modifies store`vacancies, store`checkpoints
    ensures Conserved(stats, left) && Asked(world, asked, stats.pages, left) && asked <= pageLimit
    ensures Spent(stats, world, size)
    ensures end.Broken? <==> !LastGood(world, asked)
    ensures end.Broken? ==> asked > 0 && end.status == BrokenStatus(world, asked - 1)
    ensures EndsRight(world, start, asked, end.Completed?, ResolvePageLimit(0, size))
    ensures store.vacancies == Effect(old(store.vacancies), world, asked)
    ensures end.AtLimit? ==> asked == pageLimit || start + asked >= ResolvePageLimit(0, size)
    ensures asked == 0 ==> end.AtLimit? && (pageLimit == 0 || start >= ResolvePageLimit(0, size))
    ensures old(CursorAgrees(store, scope, log0)) && NextPage(log0) == start ==>
              && CursorAgrees(store, scope, log) && log0 <= log
              && (end.Completed? ==> log0 < log && log[|log| - 1].terminal && NextPage(log) == 0)
    ensures start >= ResolvePageLimit(0, size) ==> asked == 0 && log == log0 && end == AtLimit && stats == Stats(0, 0, 0, 0, 0, 0)
    ensures SameOthers(old(store.checkpoints), store.checkpoints, scope)
  {
    hide ResolvePageLimit, Spent, SameOthers, PageFetchedWell, Bad, LeftBy, Conserved, CursorAgrees, Asked, LastGood, Ends, BrokenStatus, PageEffect;
    stats, end, left, log, asked := Stats(0, 0, 0, 0, 0, 0), AtLimit, Leftover(0, 0), log0, 0;
    StartSpent(world, size);
    AskedNone(world);
    var pageIdx: nat := start;
    ghost var good := CursorAgrees(store, scope, log0) && NextPage(log0) == start;
    while asked < pageLimit && pageIdx < ResolvePageLimit(0, size)
      invariant end == AtLimit && stats.pages == asked <= pageLimit && left == Leftover(0, 0)
      invariant Asked(world, asked, asked, left) && LastGood(world, asked)
      invariant Conserved(stats, left) && Spent(stats, world, size)
      invariant pageIdx == start + asked
      invariant store.vacancies == Effect(old(store.vacancies), world, asked)
      invariant forall n :: 0 <= n < asked ==> !Ends(world.search(n), start + n, ResolvePageLimit(0, size))
      invariant good ==> CursorAgrees(store, scope, log) && log0 <= log && NextPage(log) == pageIdx
      invariant start >= ResolvePageLimit(0, size) ==> asked == 0 && log == log0 && stats == Stats(0, 0, 0, 0, 0, 0)
      invariant SameOthers(old(store.checkpoints), store.checkpoints, scope)
      decreases pageLimit - asked
    {
      var page;
      ghost var others := store.checkpoints;
      stats, page, pageIdx, left, log := NextPageOf(store, scope, size, pageIdx, asked, world, stats, log);
      SameOthersChain(old(store.checkpoints), others, store.checkpoints, scope);
      asked := asked + 1;
      if !page.AtLimit? {
        end := page;
        break;
      }
    }
  }

  /** Runner.Run. Committed pages of the scope stay in order over this and all earlier runs, the stored
      cursor is always the next uncommitted page, and a completed run has reset it to zero. Every fetched item
      is accounted for, up to what a last page that could not be committed left behind. */
  method Run(store: Memory, scope: string, maxPages: int, perPage: int, world: World, ghost log0: seq<Commit>)
    returns (result: RunResult, ghost asked: nat, ghost left: Leftover, ghost log: seq<Commit>)
    modifies store`vacancies, store`checkpoints
    ensures Conserved(result.stats, left) && Asked(world, asked, result.stats.pages, left)
    ensures LastGood(world, asked) ==>
              var s := result.stats; s.fetched == s.upserted + s.unchangedRows + s.excluded + s.errors
    ensures result.stats.pages <= asked <= ResolvePageLimit(maxPages, PageSize(perPage))
    ensures asked == 0 <==>
              var start := ParseCursorPage(old(Stored(store, scope)));
              start.Malformed? || start.value >= ResolvePageLimit(0, PageSize(perPage))
    ensures Spent(result.stats, world, PageSize(perPage))
    ensures var start := ParseCursorPage(old(Stored(store, scope)));
            start.Number? ==>
              && EndsRight(world, start.value, asked, result.completed, ResolvePageLimit(0, PageSize(perPage)))
              && (LastGood(world, asked) && !result.completed ==>
                    asked == ResolvePageLimit(maxPages, PageSize(perPage)) || start.value + asked >= ResolvePageLimit(0, PageSize(perPage)))
    ensures result.completed ==> asked > 0 && LastGood(world, asked)
    ensures store.vacancies == Effect(old(store.vacancies), world, asked)
    ensures RightStatus(ParseCursorPage(old(Stored(store, scope))).Number?, world, asked, result.stats.errors, result.status)
    ensures old(CursorAgrees(store, scope, log0)) ==>
              && CursorAgrees(store, scope, log) && log0 <= log
              && (result.completed ==> log0 < log && log[|log| - 1].terminal && NextPage(log) == 0)
              && (NextPage(log0) >= ResolvePageLimit(0, PageSize(perPage)) ==>
                    log == log0 && result == RunResult(Success, Stats(0, 0, 0, 0, 0, 0), false))
    ensures SameOthers(old(store.checkpoints), store.checkpoints, scope)
  {
    hide ParseCursorPage, ResolvePageLimit, SameOthers, LastGood, Conserved, Spent, CursorAgrees, Asked, NextPage, Ends, EndsRight, BrokenStatus, RightStatus, PageEffect;
    var size := PageSize(perPage);
    var cursor, _ := store.GetCheckpoint("hh", scope);
    var parsed := ParseCursorPage(cursor);
    assert cursor == Stored(store, scope);
    CursorNamesNext(store, scope, log0);
    ParsedNotNegative(cursor);
    if parsed.Malformed? {
      left, log, asked := Leftover(0, 0), log0, 0;
      AskedNone(world);
      StartSpent(world, size);
      StatusHolds(world, 0, 0, AtLimit);
      result := RunResult(Failed, Stats(0, 0, 0, 0, 0, 0), false);
      return;
    }
    var stats, end, done;
    stats, end, done, left, log := RunPages(store, scope, parsed.value, ResolvePageLimit(maxPages, size), size, world, log0);
    asked := done;
    LastGoodBalances(world, asked, stats, left);
    StatusHolds(world, asked, stats.errors, end);
    var status := if end.Broken? then end.status else Success;
    if stats.errors > 0 && status == Success {
      status := Partial;
    }
    result := RunResult(status, stats, end.Completed?);
  }

  lemma CursorNamesNext(store: Memory, scope: string, log: seq<Commit>)
    ensures CursorAgrees(store, scope, log) ==> ParseCursorPage(Stored(store, scope)) == Number(NextPage(log))
  {
  }

  lemma LastGoodBalances(world: World, asked: nat, s: Stats, left: Leftover)
    requires Asked(world, asked, s.pages, left) && Conserved(s, left)
    ensures s.pages <= asked
    ensures LastGood(world, asked) ==> s.fetched == s.upserted + s.unchangedRows + s.excluded + s.errors
  {
  }

  lemma StartSpent(world: World, size: nat)
    ensures Spent(Stats(0, 0, 0, 0, 0, 0), world, size) && Conserved(Stats(0, 0, 0, 0, 0, 0), Leftover(0, 0))
    ensures forall m, scope :: SameOthers(m, m, scope)
  {
  }

  lemma SameOthersSelf(a: map<(string, string), string>, scope: string)
    ensures SameOthers(a, a, scope)
  {
  }

  lemma SameOthersChain(a: map<(string, string), string>, b: map<(string, string), string>,
                        c: map<(string, string), string>, scope: string)
    requires SameOthers(a, b, scope) && SameOthers(b, c, scope)
    ensures SameOthers(a, c, scope)
  {
  }

  lemma ParsedNotNegative(cursor: string)
    ensures ParseCursorPage(cursor).Number? ==> ParseCursorPage(cursor).value >= 0
  {
  }
}
