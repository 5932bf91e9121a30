/** The worker's snapshot scan: keyset pages over a fixed set of vacancies, a durable cursor per page, and
    pauses, resumes, crashes, failures and reclaims in between. One worker holds the lock at a time. */
module Snapshot {
  import opened Sorting
  import opened Assistant
  import opened RunLifecycle

  datatype Candidate = Candidate(createdAt: int, id: string)

  /** ORDER BY created_at, id. */
  predicate Before(a: Candidate, b: Candidate) {
    a.createdAt < b.createdAt || (a.createdAt == b.createdAt && StrLess(a.id, b.id))
  }

  /** (created_at, id) > cursor, or no cursor yet. */
  predicate After(c: Candidate, cursor: Option<Cursor>) {
    cursor.None? || Before(Candidate(cursor.value.createdAt, cursor.value.id), c)
  }

  function KeyOf(c: Candidate): Cursor { Cursor(c.createdAt, c.id) }

  function Filter(s: seq<Candidate>, keep: Candidate -> bool): seq<Candidate> {
    if s == [] then [] else (if keep(s[0]) then [s[0]] else []) + Filter(s[1..], keep)
  }

  function UpToCutoff(cutoff: int): Candidate -> bool { (c: Candidate) => c.createdAt <= cutoff }

  function AfterCursor(cursor: Option<Cursor>): Candidate -> bool { (c: Candidate) => After(c, cursor) }

  function Wanted(cutoff: int, cursor: Option<Cursor>): Candidate -> bool {
    (c: Candidate) => c.createdAt <= cutoff && After(c, cursor)
  }

  function FirstOf<T>(s: seq<T>, n: nat): seq<T> { if n < |s| then s[..n] else s }

  function EffectiveLimit(limit: int): nat { if limit < 1 || limit > 100 then 25 else limit }

  /** SnapshotCandidates as SQL writes it, over the table in any order. */
  function Query(vacancies: seq<Candidate>, cutoff: int, cursor: Option<Cursor>, limit: int): seq<Candidate> {
    FirstOf(Sort(Filter(vacancies, Wanted(cutoff, cursor)), Before), EffectiveLimit(limit))
  }

  /** The whole snapshot in scan order. */
  function All(vacancies: seq<Candidate>, cutoff: int): seq<Candidate> {
    Sort(Filter(vacancies, UpToCutoff(cutoff)), Before)
  }

  /** Strictly increasing creation times, equal ones by id. */
  predicate Increasing(all: seq<Candidate>) {
    forall i, j :: 0 <= i < j < |all| ==>
      all[i].createdAt < all[j].createdAt || (all[i].createdAt == all[j].createdAt && StrLess(all[i].id, all[j].id))
  }

  /** How many snapshot rows lie at or before the cursor. */
  function Position(all: seq<Candidate>, cursor: Option<Cursor>): (n: nat)
    ensures n <= |all|
  {
    if all == [] || After(all[0], cursor) then 0 else 1 + Position(all[1..], cursor)
  }

  lemma BeforeTransitive(a: Candidate, b: Candidate, c: Candidate)
    requires Before(a, b) && Before(b, c)
    ensures Before(a, c)
  {
    if a.createdAt == b.createdAt == c.createdAt {
      StrLessTransitive(a.id, b.id, c.id);
    }
  }

  lemma BeforeStrictWeak()
    ensures StrictWeak(Before)
  {
    forall x, y | Before(x, y) ensures !Before(y, x) {
      if x.createdAt == y.createdAt {
        StrLessAsymmetric(x.id, y.id);
      }
    }
    forall x, y, z | !Before(x, y) && !Before(y, z) ensures !Before(x, z) {
      if x.createdAt == y.createdAt == z.createdAt {
        StrLessTotal(x.id, y.id);
        StrLessTotal(y.id, z.id);
        if StrLess(x.id, z.id) {
          if StrLess(y.id, x.id) {
            StrLessTransitive(y.id, x.id, z.id);
          }
          StrLessAsymmetric(x.id, z.id);
        }
      }
    }
  }

  lemma {:induction false} FilterCount(s: seq<Candidate>, keep: Candidate -> bool, x: Candidate)
    ensures multiset(Filter(s, keep))[x] == if keep(x) then multiset(s)[x] else 0
  {
    if s != [] {
      FilterCount(s[1..], keep, x);
      assert s == [s[0]] + s[1..];
    }
  }

  lemma FilterElements(s: seq<Candidate>, t: seq<Candidate>, inner: Candidate -> bool, keep: Candidate -> bool, both: Candidate -> bool)
    requires multiset(t) == multiset(Filter(s, inner))
    requires forall c :: both(c) <==> inner(c) && keep(c)
    ensures multiset(Filter(s, both)) == multiset(Filter(t, keep))
  {
    forall x ensures multiset(Filter(s, both))[x] == multiset(Filter(t, keep))[x] {
      FilterCount(s, both, x);
      FilterCount(s, inner, x);
      FilterCount(t, keep, x);
    }
  }

  predicate DistinctRows(s: seq<Candidate>) {
    forall i, j :: 0 <= i < j < |s| ==> s[i].id != s[j].id
  }

  lemma {:induction false} FilterDistinct(s: seq<Candidate>, keep: Candidate -> bool)
    requires Distinct(s)
    ensures Distinct(Filter(s, keep))
  {
    if s != [] {
      FilterDistinct(s[1..], keep);
      FilterCount(s[1..], keep, s[0]);
      DistinctHead(s);
      assert s[0] !in multiset(Filter(s[1..], keep));
    }
  }

  lemma DistinctHead(s: seq<Candidate>)
    requires Distinct(s) && s != []
    ensures multiset(s[1..])[s[0]] == 0
  {
    assert s[0] !in s[1..];
  }

  /** The snapshot is strictly increasing in (created_at, id) and holds each wanted vacancy once. */
  lemma AllIsSnapshot(vacancies: seq<Candidate>, cutoff: int)
    requires DistinctRows(vacancies)
    ensures StrictlySorted(All(vacancies, cutoff), Before)
    ensures multiset(All(vacancies, cutoff)) == multiset(Filter(vacancies, UpToCutoff(cutoff)))
  {
    var kept := Filter(vacancies, UpToCutoff(cutoff));
    BeforeStrictWeak();
    SortCorrect(kept, Before);
    assert Distinct(vacancies);
    FilterDistinct(vacancies, UpToCutoff(cutoff));
    DistinctPermutation(kept, All(vacancies, cutoff));
    FilterFrom(vacancies, UpToCutoff(cutoff));
    var all := All(vacancies, cutoff);
    forall i, j | 0 <= i < j < |all| ensures Before(all[i], all[j]) {
      assert all[i] in multiset(kept) && all[j] in multiset(kept);
      StrLessTotal(all[i].id, all[j].id);
      assert all[i] != all[j];
      if all[i].id == all[j].id {
        SameIdSameRow(vacancies, all[i], all[j]);
      }
    }
  }

  lemma SnapshotIncreasing(vacancies: seq<Candidate>, cutoff: int)
    requires DistinctRows(vacancies)
    ensures Increasing(All(vacancies, cutoff))
    ensures forall c :: c in All(vacancies, cutoff) <==> c in vacancies && c.createdAt <= cutoff
  {
    AllIsSnapshot(vacancies, cutoff);
    hide All;
    var all := All(vacancies, cutoff);
    forall c ensures c in all <==> c in vacancies && c.createdAt <= cutoff {
      FilterCount(vacancies, UpToCutoff(cutoff), c);
      assert c in all <==> c in multiset(all);
      assert c in vacancies <==> c in multiset(vacancies);
    }
  }

  lemma {:induction false} FilterFrom(s: seq<Candidate>, keep: Candidate -> bool)
    ensures forall x :: x in Filter(s, keep) ==> x in s
  {
    if s != [] {
      FilterFrom(s[1..], keep);
    }
  }

  lemma SameIdSameRow(s: seq<Candidate>, a: Candidate, b: Candidate)
    requires DistinctRows(s) && a in s && b in s && a.id == b.id
    ensures a == b
  {
  }

  /** In a strictly sorted snapshot the rows after the cursor are the suffix from its position. */
  lemma {:induction false} FilterIsSuffix(all: seq<Candidate>, cursor: Option<Cursor>)
    requires StrictlySorted(all, Before)
    ensures Filter(all, AfterCursor(cursor)) == all[Position(all, cursor)..]
  {
    if all != [] {
      FilterIsSuffix(all[1..], cursor);
      if After(all[0], cursor) {
        AllAfter(all, cursor);
        FilterAll(all, AfterCursor(cursor));
      }
    }
  }

  lemma AllAfter(all: seq<Candidate>, cursor: Option<Cursor>)
    requires StrictlySorted(all, Before) && all != [] && After(all[0], cursor)
    ensures forall x :: x in all ==> After(x, cursor)
  {
    if cursor.Some? {
      var c := Candidate(cursor.value.createdAt, cursor.value.id);
      forall i | 0 < i < |all| ensures Before(c, all[i]) {
        BeforeTransitive(c, all[0], all[i]);
      }
    }
  }

  lemma {:induction false} FilterAll(s: seq<Candidate>, keep: Candidate -> bool)
    requires forall x :: x in s ==> keep(x)
    ensures Filter(s, keep) == s
  {
    if s != [] {
      FilterAll(s[1..], keep);
    }
  }

  /** A keyset page is the next slice of the snapshot, whatever the table order. */
  lemma QueryIsSlice(vacancies: seq<Candidate>, cutoff: int, cursor: Option<Cursor>, limit: int)
    requires DistinctRows(vacancies)
    ensures var all := All(vacancies, cutoff);
            Query(vacancies, cutoff, cursor, limit) == FirstOf(all[Position(all, cursor)..], if 1 <= limit <= 100 then limit else 25)
  {
    var all := All(vacancies, cutoff);
    var wanted := Filter(vacancies, Wanted(cutoff, cursor));
    AllIsSnapshot(vacancies, cutoff);
    FilterElements(vacancies, all, UpToCutoff(cutoff), AfterCursor(cursor), Wanted(cutoff, cursor));
    FilterIsSuffix(all, cursor);
    BeforeStrictWeak();
    SortCorrect(wanted, Before);
    SortedPermutationUnique(all[Position(all, cursor)..], Sort(wanted, Before), Before);
  }

  /** Moving the cursor to the last row of the page moves the position past the page. */
  lemma {:induction false} PositionOf(all: seq<Candidate>, k: nat)
    requires StrictlySorted(all, Before) && k < |all|
    ensures Position(all, Some(KeyOf(all[k]))) == k + 1
  {
    BeforeStrictWeak();
    if k == 0 {
      if |all| > 1 {
        assert Before(all[0], all[1]);
      }
    } else {
      assert Before(all[0], all[k]);
      PositionOf(all[1..], k - 1);
    }
  }

  /* ---- one run over its whole life ---- */

  datatype Worker =
    | Idle
    | Taken(cursor: Option<Cursor>, processed: int)                             // users not looked up yet
    | Scanning(cursor: Option<Cursor>, processed: int)                          // between pages
    | Holding(cursor: Option<Cursor>, processed: int, page: seq<Candidate>)     // page processed, not yet saved

  /** The run row, the worker, the pages saved with a cursor, where the cursor stood when the count was last
      reset, the rows counted by failed pages since, and whether the run was ended because the store named no user for it. */
  datatype Sys = Sys(row: Row, worker: Worker, pages: seq<seq<Candidate>>, base: nat, partials: seq<nat>, noUsers: bool)

  datatype Action =
    | Take(now: int)                       // claim or reclaim
    | UsersLoaded
    | UsersFail(now: int)                  // the lookup fails: the run fails with empty statistics
    | NoUsers(now: int)                    // the store answers no user: the run succeeds at once
    | Read(limit: int, now: int)           // next page; an empty one completes the run
    | Save(now: int)                       // UpdateAssistantRunProgress
    | SaveFails(now: int)                  // it fails: the page is counted, the cursor is not moved
    | PageLimit                            // the worker pauses its own run
    | Fail(limit: int, counted: nat, now: int) // an error after `counted` rows of the next page
    | Crash
    | UserPause
    | UserResume
    | UserSupersede(current: nat, now: int)
    | OperatorRecover

  function Flat(pages: seq<seq<Candidate>>): seq<Candidate> {
    if pages == [] then [] else Flat(pages[..|pages| - 1]) + pages[|pages| - 1]
  }

  function Total(partials: seq<nat>): nat {
    if partials == [] then 0 else Total(partials[..|partials| - 1]) + partials[|partials| - 1]
  }

  function Act(s: Sys, a: Action, vacancies: seq<Candidate>, cutoff: int): Sys {
    var row := s.row;
    match a
    case Take(now) =>
      if s.worker.Idle? && Claimable(row, now)
      then s.(row := Claimed(row, now), worker := Taken(row.cursor, row.processed)) else s
    case UsersLoaded =>
      if s.worker.Taken? then s.(worker := Scanning(s.worker.cursor, s.worker.processed)) else s
    case UsersFail(now) =>
      if !s.worker.Taken? then s
      else if row.state != RunLifecycle.Running then s.(worker := Idle)
      else s.(row := CompletedRow(row, Failed, 0, now), worker := Idle,
              base := Position(All(vacancies, cutoff), row.cursor), partials := [])
    case NoUsers(now) =>
      if !s.worker.Taken? then s
      else if row.state != RunLifecycle.Running then s.(worker := Idle)
      else s.(row := CompletedRow(row, Succeeded, s.worker.processed, now), worker := Idle, noUsers := true)
    case Read(limit, now) =>
      if !s.worker.Scanning? then s
      else
        var page := Query(vacancies, cutoff, s.worker.cursor, limit);
        if page != [] then s.(worker := Holding(s.worker.cursor, s.worker.processed + |page|, page))
        else s.(row := if row.state == RunLifecycle.Running then CompletedRow(row, Succeeded, s.worker.processed, now) else row,
                worker := Idle)
    case Save(now) =>
      if !s.worker.Holding? || s.worker.page == [] then s
      else if row.state != RunLifecycle.Running then s.(worker := Idle)
      else
        var cursor := Some(KeyOf(s.worker.page[|s.worker.page| - 1]));
        s.(row := ProgressedRow(row, s.worker.processed, cursor, now),
           worker := Scanning(cursor, s.worker.processed), pages := s.pages + [s.worker.page])
    case SaveFails(now) =>
      if !s.worker.Holding? then s
      else if row.state != RunLifecycle.Running then s.(worker := Idle)
      else s.(row := CompletedRow(row, Failed, s.worker.processed, now), worker := Idle,
              partials := s.partials + [|s.worker.page|])
    case PageLimit =>
      if s.worker.Scanning? then s.(row := if Pausable(row) then PausedRow(row) else row, worker := Idle) else s
    case Fail(limit, counted, now) =>
      if !s.worker.Scanning? || counted > |Query(vacancies, cutoff, s.worker.cursor, limit)| then s
      else if row.state != RunLifecycle.Running then s.(worker := Idle)
      else s.(row := CompletedRow(row, Failed, s.worker.processed + counted, now), worker := Idle,
              partials := s.partials + [counted])
    case Crash => s.(worker := Idle)
    case UserPause => if Pausable(row) then s.(row := PausedRow(row)) else s
    case UserResume => if row.state == Paused then s.(row := ResumedRow(row)) else s
    case UserSupersede(current, now) =>
      if Supersedable(row, row.user, current) then s.(row := SupersededRow(row, now)) else s
    case OperatorRecover => if Recoverable(row) then s.(row := RecoveredRow(row)) else s
  }

  function Life(s: Sys, actions: seq<Action>, vacancies: seq<Candidate>, cutoff: int): Sys
    decreases |actions|
  {
    if actions == [] then s else Life(Act(s, actions[0], vacancies, cutoff), actions[1..], vacancies, cutoff)
  }

  function Queued(user: string, total: int): Sys {
    Sys(Row(user, "", 0, RULESET, RunLifecycle.Queued, 0, total, None, None, None, None, 0), Idle, [], 0, [], false)
  }

  predicate WorkerAgrees(s: Sys, vacancies: seq<Candidate>, cutoff: int) {
    match s.worker
    case Idle => true
    case Taken(cursor, processed) => cursor == s.row.cursor && processed == s.row.processed
    case Scanning(cursor, processed) => cursor == s.row.cursor && processed == s.row.processed
    case Holding(cursor, processed, page) =>
      && cursor == s.row.cursor && page != [] && processed == s.row.processed + |page|
      && var all := All(vacancies, cutoff);
      var n := Position(all, cursor);
      n + |page| <= |all| && page == all[n..n + |page|]
  }

  predicate Done(r: Row) {
    r.state == Succeeded || (r.state == Superseded && r.supersededFrom == Some(Succeeded))
  }

  /** The saved pages are the snapshot up to the cursor; the processed count is what they hold since the last
      reset plus what failed pages left behind; a succeeded run has seen everything unless the store named no user for it. */
  predicate ScanInv(s: Sys, vacancies: seq<Candidate>, cutoff: int) {
    var all := All(vacancies, cutoff);
    var n := Position(all, s.row.cursor);
    && Flat(s.pages) == all[..n]
    && s.base <= n && s.row.processed == n - s.base + Total(s.partials)
    && WorkerAgrees(s, vacancies, cutoff)
    && (Done(s.row) && !s.noUsers ==> n == |all|)
    && (s.noUsers ==> Done(s.row))
  }

  lemma ReadKeeps(s: Sys, limit: int, now: int, vacancies: seq<Candidate>, cutoff: int)
    requires DistinctRows(vacancies) && ScanInv(s, vacancies, cutoff) && s.worker.Scanning?
    ensures ScanInv(Act(s, Read(limit, now), vacancies, cutoff), vacancies, cutoff)
  {
    hide Query, All, Position, Flat;
    QueryIsSlice(vacancies, cutoff, s.worker.cursor, limit);
    var all := All(vacancies, cutoff);
    var n := Position(all, s.row.cursor);
    var page := Query(vacancies, cutoff, s.worker.cursor, limit);
    assert page == all[n..n + |page|];
  }

  lemma SaveKeeps(s: Sys, now: int, vacancies: seq<Candidate>, cutoff: int)
    requires DistinctRows(vacancies) && ScanInv(s, vacancies, cutoff)
    requires s.worker.Holding? && s.worker.page != [] && s.row.state == RunLifecycle.Running
    ensures var cursor := Some(KeyOf(s.worker.page[|s.worker.page| - 1]));
            ScanInv(s.(row := ProgressedRow(s.row, s.worker.processed, cursor, now),
                       worker := Scanning(cursor, s.worker.processed), pages := s.pages + [s.worker.page]), vacancies, cutoff)
  {
    hide All, Position, Flat, Before, StrictlySorted, Done, Total;
    var all := All(vacancies, cutoff);
    var n, page := Position(all, s.row.cursor), s.worker.page;
    AllIsSnapshot(vacancies, cutoff);
    PositionOf(all, n + |page| - 1);
    SavedSlices(all, n, page, s.pages);
    assert !Done(s.row) by { RunningNotDone(s.row); }
    var cursor := Some(KeyOf(page[|page| - 1]));
    var after := ProgressedRow(s.row, s.worker.processed, cursor, now);
    RunningNotDone(after);
  }

  lemma RunningNotDone(r: Row)
    requires r.state == RunLifecycle.Running
    ensures !Done(r)
  {
  }

  lemma SavedSlices(all: seq<Candidate>, n: nat, page: seq<Candidate>, pages: seq<seq<Candidate>>)
    requires n + |page| <= |all| && page != [] && page == all[n..n + |page|] && Flat(pages) == all[..n]
    ensures Flat(pages + [page]) == all[..n + |page|]
    ensures page[|page| - 1] == all[n + |page| - 1]
  {
    var more := pages + [page];
    assert more[..|more| - 1] == pages;
    assert all[..n] + all[n..n + |page|] == all[..n + |page|];
  }

  lemma FailKeeps(s: Sys, a: Action, vacancies: seq<Candidate>, cutoff: int)
    requires ScanInv(s, vacancies, cutoff) && (a.Fail? || a.SaveFails?)
    ensures ScanInv(Act(s, a, vacancies, cutoff), vacancies, cutoff)
  {
    hide Query, All, Position, Flat;
    var counted := if a.Fail? then a.counted else if s.worker.Holding? then |s.worker.page| else 0;
    assert (s.partials + [counted])[..|s.partials|] == s.partials;
    assert Total(s.partials + [counted]) == Total(s.partials) + counted;
  }

  lemma LookupKeeps(s: Sys, a: Action, vacancies: seq<Candidate>, cutoff: int)
    requires ScanInv(s, vacancies, cutoff) && (a.Take? || a.UsersLoaded? || a.UsersFail? || a.NoUsers?)
    ensures ScanInv(Act(s, a, vacancies, cutoff), vacancies, cutoff)
  {
    hide Query, All, Position, Flat;
    assert Total([]) == 0;
  }

  lemma RowKeeps(s: Sys, a: Action, vacancies: seq<Candidate>, cutoff: int)
    requires ScanInv(s, vacancies, cutoff)
    requires a.PageLimit? || a.Crash? || a.UserPause? || a.UserResume? || a.UserSupersede? || a.OperatorRecover?
    ensures ScanInv(Act(s, a, vacancies, cutoff), vacancies, cutoff)
  {
    hide Query, All, Position, Flat, Total;
  }

  lemma ActKeeps(s: Sys, a: Action, vacancies: seq<Candidate>, cutoff: int)
    requires DistinctRows(vacancies) && ScanInv(s, vacancies, cutoff)
    ensures ScanInv(Act(s, a, vacancies, cutoff), vacancies, cutoff)
  {
    hide ScanInv, Query, All, Position, Flat;
    match a
    case Read(limit, now) =>
      if s.worker.Scanning? {
        ReadKeeps(s, limit, now, vacancies, cutoff);
      }
    case Save(now) => SaveActs(s, now, vacancies, cutoff);
    case Fail(_, _, _) => FailKeeps(s, a, vacancies, cutoff);
    case SaveFails(_) => FailKeeps(s, a, vacancies, cutoff);
    case Take(_) => LookupKeeps(s, a, vacancies, cutoff);
    case UsersLoaded => LookupKeeps(s, a, vacancies, cutoff);
    case UsersFail(_) => LookupKeeps(s, a, vacancies, cutoff);
    case NoUsers(_) => LookupKeeps(s, a, vacancies, cutoff);
    case _ => RowKeeps(s, a, vacancies, cutoff);
  }

  lemma SaveActs(s: Sys, now: int, vacancies: seq<Candidate>, cutoff: int)
    requires DistinctRows(vacancies) && ScanInv(s, vacancies, cutoff)
    ensures ScanInv(Act(s, Save(now), vacancies, cutoff), vacancies, cutoff)
  {
    hide Query, All, Position, Flat;
    if s.worker.Holding? && s.row.state == RunLifecycle.Running {
      SaveKeeps(s, now, vacancies, cutoff);
    }
  }

  /** For every life of a run, whatever pauses, crashes, reclaims and failures it goes through. */
  lemma {:induction false} LifeKeeps(s: Sys, actions: seq<Action>, vacancies: seq<Candidate>, cutoff: int)
    requires DistinctRows(vacancies) && ScanInv(s, vacancies, cutoff)
    ensures ScanInv(Life(s, actions, vacancies, cutoff), vacancies, cutoff)
    decreases |actions|
  {
    if actions != [] {
      ActKeeps(s, actions[0], vacancies, cutoff);
      LifeKeeps(Act(s, actions[0], vacancies, cutoff), actions[1..], vacancies, cutoff);
    }
  }

  lemma {:induction false} TotalZero(partials: seq<nat>)
    ensures Total(partials) == 0 <==> forall k :: k in partials ==> k == 0
  {
    if partials != [] {
      var n := |partials| - 1;
      TotalZero(partials[..n]);
      assert partials == partials[..n] + [partials[n]];
      assert partials[n] in partials;
      assert forall k :: k in partials[..n] ==> k in partials;
    }
  }

  /** The saved pages enumerate the snapshot in strictly increasing (created_at, id) without gap or
      repeat, a succeeded run has enumerated all of it unless the store named no user for it, and the stored count equals
      the rows at or before the cursor exactly when failed pages counted as many rows since the last reset
      as the reset had dropped. */
  lemma SnapshotEnumerated(user: string, total: int, actions: seq<Action>, vacancies: seq<Candidate>, cutoff: int)
    requires DistinctRows(vacancies)
    ensures var all := All(vacancies, cutoff);
            var end := Life(Queued(user, total), actions, vacancies, cutoff);
            var n := Position(all, end.row.cursor);
            && Increasing(all) && (forall c :: c in all <==> c in vacancies && c.createdAt <= cutoff)
            && Flat(end.pages) == all[..n]
            && (end.row.state == Succeeded && !end.noUsers ==> Flat(end.pages) == all)
            && end.base <= n && end.row.processed == n - end.base + Total(end.partials)
            && (end.row.processed == n <==> Total(end.partials) == end.base)
  {
    var start := Queued(user, total);
    SnapshotIncreasing(vacancies, cutoff);
    StartHolds(user, total, vacancies, cutoff);
    LifeKeeps(start, actions, vacancies, cutoff);
    hide Query, All, Position, Flat, Life, Increasing;
  }

  /** Without a failed users lookup nothing was ever dropped. */
  lemma {:induction false} NoResetNoBase(s: Sys, actions: seq<Action>, vacancies: seq<Candidate>, cutoff: int)
    requires forall a :: a in actions ==> !a.UsersFail?
    ensures Life(s, actions, vacancies, cutoff).base == s.base
    decreases |actions|
  {
    hide Query, All, Position, Flat;
    if actions != [] {
      NoResetNoBase(Act(s, actions[0], vacancies, cutoff), actions[1..], vacancies, cutoff);
    }
  }

  /** In a life without one the count equals the position exactly when no failed page counted a row. */
  lemma CountedIff(user: string, total: int, actions: seq<Action>, vacancies: seq<Candidate>, cutoff: int)
    requires DistinctRows(vacancies) && forall a :: a in actions ==> !a.UsersFail?
    ensures var end := Life(Queued(user, total), actions, vacancies, cutoff);
            end.row.processed == Position(All(vacancies, cutoff), end.row.cursor) <==>
            forall k :: k in end.partials ==> k == 0
  {
    SnapshotEnumerated(user, total, actions, vacancies, cutoff);
    NoResetNoBase(Queued(user, total), actions, vacancies, cutoff);
    hide Query, All, Position, Flat, Life;
    TotalZero(Life(Queued(user, total), actions, vacancies, cutoff).partials);
  }

  lemma StartHolds(user: string, total: int, vacancies: seq<Candidate>, cutoff: int)
    ensures ScanInv(Queued(user, total), vacancies, cutoff)
  {
    hide All;
    assert Position(All(vacancies, cutoff), None) == 0;
  }

  /** The count can really drift: of two vacancies one is counted before the failure, then pause, resume and
      reclaim. */
  lemma FailedPageDrifts(user: string, c: Candidate, d: Candidate, cutoff: int)
    requires c.createdAt <= cutoff && d.createdAt <= cutoff && c.id != d.id
    ensures var life := [Take(0), UsersLoaded, Fail(25, 1, 1), UserPause, UserResume, Take(2)];
            var end := Life(Queued(user, |All([c, d], cutoff)|), life, [c, d], cutoff);
            end.row.processed == 1 && end.row.cursor.None? && end.worker.Taken?
  {
    hide Query, All, Act, Life;
    var table := [c, d];
    TwoRows(c, d, cutoff);
    var s0 := Queued(user, 2);
    var s1 := Act(Act(s0, Take(0), table, cutoff), UsersLoaded, table, cutoff);
    var s2 := Act(s1, Fail(25, 1, 1), table, cutoff);
    var s3 := Act(Act(s2, UserPause, table, cutoff), UserResume, table, cutoff);
    FailsAfterOne(s0, table, cutoff);
    var life := [Take(0), UsersLoaded, Fail(25, 1, 1), UserPause, UserResume, Take(2)];
    LifeTwo(s0, life, table, cutoff);
    LifeStep(s1, life[2..], table, cutoff);
    assert life[2..][1..] == life[3..];
    LifeTwo(s2, life[3..], table, cutoff);
    assert life[3..][2..] == life[5..];
    LifeStep(s3, life[5..], table, cutoff);
    assert life[5..][1..] == [];
    LifeNone(Act(s3, Take(2), table, cutoff), table, cutoff);
  }

  lemma FailsAfterOne(s0: Sys, table: seq<Candidate>, cutoff: int)
    requires s0 == Queued(s0.row.user, 2) && |Query(table, cutoff, None, 25)| == 2
    ensures var s1 := Act(Act(s0, Take(0), table, cutoff), UsersLoaded, table, cutoff);
            var s2 := Act(s1, Fail(25, 1, 1), table, cutoff);
            var s3 := Act(Act(s2, UserPause, table, cutoff), UserResume, table, cutoff);
            var s4 := Act(s3, Take(2), table, cutoff);
            s4.row.processed == 1 && s4.row.cursor.None? && s4.worker.Taken?
  {
    hide Query, All, Position;
    var s1 := Act(Act(s0, Take(0), table, cutoff), UsersLoaded, table, cutoff);
    assert s1.worker == Scanning(None, 0) && s1.row.state == RunLifecycle.Running && s1.row.total == 2;
    var s2 := Act(s1, Fail(25, 1, 1), table, cutoff);
    assert s2.row.state == Failed && s2.row.processed == 1 && s2.row.cursor.None? && s2.worker == Idle;
    assert s2.row.total == 2;
  }

  lemma LifeNone(s: Sys, vacancies: seq<Candidate>, cutoff: int)
    ensures Life(s, [], vacancies, cutoff) == s
  {
  }

  lemma TwoRows(c: Candidate, d: Candidate, cutoff: int)
    requires c.createdAt <= cutoff && d.createdAt <= cutoff && c.id != d.id
    ensures |All([c, d], cutoff)| == 2 && |Query([c, d], cutoff, None, 25)| == 2
  {
    var table := [c, d];
    assert Filter(table[1..], UpToCutoff(cutoff)) == [d];
    assert Filter(table, UpToCutoff(cutoff)) == [c, d];
    hide Filter;
    AllIsSnapshot(table, cutoff);
    var all := All(table, cutoff);
    assert |multiset(all)| == |multiset([c, d])| == 2;
    QueryIsSlice(table, cutoff, None, 25);
    assert Position(all, None) == 0 && all[0..] == all;
  }

  /** And it can fall short with no failed page at all: a page is saved, the run pauses at its page limit, and
      after the resume the users lookup fails. */
  lemma FailedLookupResets(user: string, c: Candidate, cutoff: int)
    requires c.createdAt <= cutoff
    ensures var life := [Take(0), UsersLoaded, Read(25, 1), Save(2), PageLimit, UserResume, Take(3), UsersFail(4)];
            var end := Life(Queued(user, 1), life, [c], cutoff);
            && end.row.processed == 0 && end.partials == [] && end.row.cursor == Some(KeyOf(c))
            && Position(All([c], cutoff), end.row.cursor) == 1
  {
    hide Query, All, Position, Act, Life;
    var s0 := Queued(user, 1);
    var s4 := OnePageThenLimit(user, c, cutoff);
    LookupFailsAfter(s4, c, cutoff);
    LifeTwo(s0, [Take(0), UsersLoaded, Read(25, 1), Save(2), PageLimit, UserResume, Take(3), UsersFail(4)], [c], cutoff);
    var s1 := Act(Act(s0, Take(0), [c], cutoff), UsersLoaded, [c], cutoff);
    LifeTwo(s1, [Read(25, 1), Save(2), PageLimit, UserResume, Take(3), UsersFail(4)], [c], cutoff);
    var s3 := Act(Act(s1, Read(25, 1), [c], cutoff), Save(2), [c], cutoff);
    LifeTwo(s3, [PageLimit, UserResume, Take(3), UsersFail(4)], [c], cutoff);
  }

  /** One page is read and saved, the run pauses at the page limit and is resumed. */
  lemma OnePageThenLimit(user: string, c: Candidate, cutoff: int) returns (end: Sys)
    requires c.createdAt <= cutoff
    ensures var s1 := Act(Act(Queued(user, 1), Take(0), [c], cutoff), UsersLoaded, [c], cutoff);
            var s3 := Act(Act(s1, Read(25, 1), [c], cutoff), Save(2), [c], cutoff);
            end == Act(Act(s3, PageLimit, [c], cutoff), UserResume, [c], cutoff)
    ensures end.row.state == RunLifecycle.Queued && end.worker == Idle && end.partials == []
    ensures end.row.cursor == Some(KeyOf(c)) && end.row.processed == 1
  {
    hide Query, All, Position;
    OneRowQuery(c, cutoff);
    var s1 := Act(Act(Queued(user, 1), Take(0), [c], cutoff), UsersLoaded, [c], cutoff);
    assert s1.worker == Scanning(None, 0) && s1.row.state == RunLifecycle.Running && s1.partials == [];
    var s2 := Act(s1, Read(25, 1), [c], cutoff);
    assert s2.worker == Holding(None, 1, [c]) && s2.row == s1.row && s2.partials == [];
    var s3 := Act(s2, Save(2), [c], cutoff);
    assert s3.row.cursor == Some(KeyOf(c)) && s3.row.state == RunLifecycle.Running && s3.row.processed == 1;
    end := Act(Act(s3, PageLimit, [c], cutoff), UserResume, [c], cutoff);
  }

  lemma LookupFailsAfter(s: Sys, c: Candidate, cutoff: int)
    requires s.row.state == RunLifecycle.Queued && s.worker == Idle && s.row.cursor == Some(KeyOf(c)) && c.createdAt <= cutoff
    ensures var end := Life(s, [Take(3), UsersFail(4)], [c], cutoff);
            && end.row.processed == 0 && end.partials == [] && end.row.cursor == Some(KeyOf(c))
            && Position(All([c], cutoff), end.row.cursor) == 1
  {
    hide All, Position;
    OneRowAll(c, cutoff);
    LifeTwo(s, [Take(3), UsersFail(4)], [c], cutoff);
  }

  /** The branch for a store that answers "no user" marks the run succeeded although nothing was read. The schema
      keeps the preference row of a run from being deleted, so PostgreSQL never answers so. */
  lemma NoUsersSucceedsUnread(user: string, c: Candidate, cutoff: int)
    requires c.createdAt <= cutoff
    ensures var end := Life(Queued(user, 1), [Take(0), NoUsers(1)], [c], cutoff);
            end.row.state == Succeeded && end.pages == [] && All([c], cutoff) == [c]
  {
    hide Query, All, Position;
    OneRowAll(c, cutoff);
    LifeTwo(Queued(user, 1), [Take(0), NoUsers(1)], [c], cutoff);
  }

  lemma LifeTwo(s: Sys, actions: seq<Action>, vacancies: seq<Candidate>, cutoff: int)
    requires |actions| >= 2
    ensures Life(s, actions, vacancies, cutoff) ==
            Life(Act(Act(s, actions[0], vacancies, cutoff), actions[1], vacancies, cutoff), actions[2..], vacancies, cutoff)
  {
    LifeStep(s, actions, vacancies, cutoff);
    LifeStep(Act(s, actions[0], vacancies, cutoff), actions[1..], vacancies, cutoff);
    assert actions[1..][1..] == actions[2..];
  }

  lemma LifeStep(s: Sys, actions: seq<Action>, vacancies: seq<Candidate>, cutoff: int)
    requires actions != []
    ensures Life(s, actions, vacancies, cutoff) == Life(Act(s, actions[0], vacancies, cutoff), actions[1..], vacancies, cutoff)
  {
  }

  lemma OneRowQuery(c: Candidate, cutoff: int)
    requires c.createdAt <= cutoff
    ensures Query([c], cutoff, None, 25) == [c]
  {
    assert Filter([c], Wanted(cutoff, None)) == [c];
    assert Sort([c], Before) == Insert(c, [], Before);
  }

  lemma OneRowAll(c: Candidate, cutoff: int)
    requires c.createdAt <= cutoff
    ensures All([c], cutoff) == [c] && Position(All([c], cutoff), Some(KeyOf(c))) == 1
  {
    assert Filter([c], UpToCutoff(cutoff)) == [c];
    assert Sort([c], Before) == Insert(c, [], Before);
    PositionOf([c], 0);
  }

  /** The snapshot loop of RunOnce over a claimed run: pages until none is left or the page limit. */
  method ScanSnapshot(vacancies: seq<Candidate>, cutoff: int, start: Option<Cursor>, limit: int, maxPages: int)
    returns (cursor: Option<Cursor>, processed: nat, pages: nat, finished: bool)
    requires DistinctRows(vacancies)
    ensures var all := All(vacancies, cutoff);
            && processed == Position(all, cursor) - Position(all, start)
            && (finished ==> Position(all, cursor) == |all|)
            && (!finished ==> maxPages > 0 && pages == maxPages)
            && pages <= |all| - Position(all, start)
  {
    hide Query, All, Position;
    ghost var all := All(vacancies, cutoff);
    cursor, processed, pages := start, 0, 0;
    while true
      invariant processed == Position(all, cursor) - Position(all, start)
      invariant pages <= processed && (maxPages > 0 ==> pages < maxPages)
      decreases |all| - Position(all, cursor)
    {
      PageMoves(vacancies, cutoff, cursor, limit);
      var page := Query(vacancies, cutoff, cursor, limit);
      if |page| == 0 {
        return cursor, processed, pages, true;
      }
      cursor := Some(KeyOf(page[|page| - 1]));
      processed, pages := processed + |page|, pages + 1;
      if maxPages > 0 && pages >= maxPages {
        return cursor, processed, pages, false;
      }
    }
  }

  /** A page moves the cursor by its length; an empty one means the end. */
  lemma PageMoves(vacancies: seq<Candidate>, cutoff: int, cursor: Option<Cursor>, limit: int)
    requires DistinctRows(vacancies)
    ensures var all, page := All(vacancies, cutoff), Query(vacancies, cutoff, cursor, limit);
            if page == [] then Position(all, cursor) == |all|
            else Position(all, Some(KeyOf(page[|page| - 1]))) == Position(all, cursor) + |page|
  {
    AllIsSnapshot(vacancies, cutoff);
    QueryIsSlice(vacancies, cutoff, cursor, limit);
    hide Query, All, Position;
    var all, page := All(vacancies, cutoff), Query(vacancies, cutoff, cursor, limit);
    if page != [] {
      var n := Position(all, cursor);
      assert page[|page| - 1] == all[n + |page| - 1];
      PositionOf(all, n + |page| - 1);
    }
  }
}
