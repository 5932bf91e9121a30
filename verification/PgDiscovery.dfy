/** The PostgreSQL form of the discovery steps, each transaction one atomic update. The cycle row moves only
    while it is running; page saves the memory store accepts may be refused; and a restart may add rows
    behind the totals' back. */
module PgDiscovery {
  import opened Sums
  import opened DiscoveryCycle
  import opened DiscoveryProtocol

  /* ---- SaveDiscoveryPage ---- */

  datatype Saved = Accepted(cs: CycleState) | Refused

  /** An update of the cycle row is guarded by its status; the partition row changes either way. */
  function Guarded(before: CycleState, after: CycleState): CycleState {
    if before.cycle.status == Running then after else after.(cycle := before.cycle)
  }

  function PgSave(cs: CycleState, i: nat, page: int): Saved
    requires i < |cs.parts|
  {
    if page + 1 <= cs.parts[i].nextPage then Accepted(cs)
    else if page + 1 > cs.parts[i].expectedPages then Refused
    else Accepted(Guarded(cs, SaveAt(cs, i, page)))
  }

  /** PostgreSQL keeps the totals of a running cycle for every page but one that skips ahead of an open row,
      and those of a finished cycle for every page it does not really save. */
  lemma PgSaveKeepsIff(cs: CycleState, i: nat, page: int)
    requires i < |cs.parts| && Consistent(cs) && Bounded(cs)
    ensures (PgSave(cs, i, page).Accepted? ==> Consistent(PgSave(cs, i, page).cs)) <==>
            || page < cs.parts[i].nextPage || page >= cs.parts[i].expectedPages
            || (page == cs.parts[i].nextPage && cs.cycle.status == Running)
  {
    SaveKeepsIff(cs, i, page);
    IndexOfUnique(cs.parts, i);
    RowUpdateSums(cs, i, SaveAt(cs, i, page).parts[i]);
  }

  /** For the page the driver asks for both stores agree exactly while the cycle is running. */
  lemma PgSaveAgrees(cs: CycleState, i: nat)
    requires i < |cs.parts| && Consistent(cs) && Bounded(cs) && cs.parts[i].status != Complete
    ensures PgSave(cs, i, cs.parts[i].nextPage) == Accepted(Save(cs, cs.parts[i].key, cs.parts[i].nextPage)) <==>
            cs.cycle.status == Running
  {
    IndexOfUnique(cs.parts, i);
  }

  /* ---- SetDiscoveryExpectedPages ---- */

  function PgAgree(cs: CycleState, i: nat, pages: nat): CycleState
    requires i < |cs.parts|
  {
    var p := cs.parts[i];
    if p.nextPage != 0 || p.expectedPages == pages then cs
    else
      Guarded(cs, CycleState(
        cs.cycle.(expectedPages := cs.cycle.expectedPages + (pages - p.expectedPages),
                  completedPartitions := cs.cycle.completedPartitions + One(pages == 0)),
        cs.parts[i := p.(expectedPages := pages, status := if pages == 0 then Complete else Pending)]))
  }

  /* ---- StartDiscoveryCycle on an existing cycle ---- */

  /** Rows with a new key are inserted, the rest ignored; the cycle row is not touched. */
  function PgRestart(cs: CycleState, rows: seq<Partition>): CycleState
    decreases |rows|
  {
    if rows == [] then cs
    else
      var known := IndexOf(cs.parts, rows[0].key) < |cs.parts|;
      PgRestart(if known then cs else cs.(parts := cs.parts + [rows[0]]), rows[1..])
  }

  predicate AllKnown(cs: CycleState, rows: seq<Partition>) {
    forall r :: r in rows ==> IndexOf(cs.parts, r.key) < |cs.parts|
  }

  lemma {:induction false} PgRestartGrows(cs: CycleState, rows: seq<Partition>)
    ensures |PgRestart(cs, rows).parts| >= |cs.parts|
    ensures PgRestart(cs, rows).cycle == cs.cycle
    ensures AllKnown(cs, rows) ==> PgRestart(cs, rows) == cs
    ensures !AllKnown(cs, rows) ==> |PgRestart(cs, rows).parts| > |cs.parts|
    decreases |rows|
  {
    if rows != [] {
      var known := IndexOf(cs.parts, rows[0].key) < |cs.parts|;
      var next := if known then cs else cs.(parts := cs.parts + [rows[0]]);
      PgRestartGrows(next, rows[1..]);
      assert rows == [rows[0]] + rows[1..];
      if known && !AllKnown(cs, rows) {
        var r :| r in rows && IndexOf(cs.parts, r.key) >= |cs.parts|;
        assert r in rows[1..];
      }
    }
  }

  /** A restart keeps the totals right exactly when the new plan has no key the cycle does not know. */
  lemma PgRestartKeepsIff(cs: CycleState, rows: seq<Partition>)
    requires Consistent(cs)
    ensures Consistent(PgRestart(cs, rows)) <==> AllKnown(cs, rows)
  {
    PgRestartGrows(cs, rows);
  }

  /* ---- the consequence over a whole run ---- */

  datatype PgEvent =
    | SaveNext(key: string)               // save the stored next page of an open row
    | Agree(key: string, pages: nat)      // SetDiscoveryExpectedPages on an open row
    | Restart(rows: seq<Partition>)
    | Finish                              // CompleteDiscoveryCycle

  predicate PlanRow(p: Partition) {
    Fresh(p) && p.expectedPages >= 0
  }

  predicate PgAllowed(e: PgEvent) {
    e.Restart? ==> forall r :: r in e.rows ==> PlanRow(r)
  }

  /** CompleteDiscoveryCycle accepts the cycle, running or complete already. */
  predicate PgCompletes(cs: CycleState) {
    TotalsComplete(cs.cycle) && forall i :: 0 <= i < |cs.parts| ==> cs.parts[i].status == Complete
  }

  predicate TotalsComplete(c: Cycle) {
    c.completedPages == c.expectedPages && c.completedPartitions == c.partitionCount
  }

  function PgStep(cs: CycleState, e: PgEvent): CycleState {
    match e
    case Restart(rows) => PgRestart(cs, rows)
    case SaveNext(key) =>
      var i := IndexOf(cs.parts, key);
      if i == |cs.parts| || cs.parts[i].status == Complete then cs
      else
        var saved := PgSave(cs, i, cs.parts[i].nextPage);
        if saved.Accepted? then saved.cs else cs
    case Agree(key, pages) =>
      var i := IndexOf(cs.parts, key);
      if i == |cs.parts| || cs.parts[i].status == Complete then cs else PgAgree(cs, i, pages)
    case Finish => if PgCompletes(cs) then cs.(cycle := cs.cycle.(status := Finished)) else cs
  }

  function PgRun(cs: CycleState, events: seq<PgEvent>): CycleState
    decreases |events|
  {
    if events == [] then cs else PgRun(PgStep(cs, events[0]), events[1..])
  }

  /** Some sequence of steps makes CompleteDiscoveryCycle succeed. */
  ghost predicate Completable(cs: CycleState) {
    exists events: seq<PgEvent> :: (forall e :: e in events ==> PgAllowed(e)) && PgCompletes(PgRun(cs, events))
  }

  /* ---- a running cycle falls behind for good ---- */

  /** How many row pages the cycle's expected total does not know about. */
  function Drift(cs: CycleState): int {
    Sum(cs.parts, ExpectedOf) - cs.cycle.expectedPages
  }

  predicate RowsOk(cs: CycleState) {
    forall i :: 0 <= i < |cs.parts| ==> Settled(cs.parts[i]) && 0 <= cs.parts[i].nextPage <= cs.parts[i].expectedPages
  }

  /** What a running cycle keeps through restarts: settled rows, and completed pages that are the rows' sum. */
  predicate Tracked(cs: CycleState) {
    cs.cycle.status == Running && RowsOk(cs) && cs.cycle.completedPages == Sum(cs.parts, NextOf)
  }

  function Inserted(cs: CycleState, row: Partition): CycleState {
    if IndexOf(cs.parts, row.key) < |cs.parts| then cs else cs.(parts := cs.parts + [row])
  }

  lemma InsertedDrift(cs: CycleState, row: Partition)
    requires Tracked(cs) && PlanRow(row)
    ensures Tracked(Inserted(cs, row))
    ensures Drift(Inserted(cs, row)) ==
            Drift(cs) + if IndexOf(cs.parts, row.key) == |cs.parts| then row.expectedPages else 0
  {
    SumAppend(cs.parts, [row], NextOf);
    SumAppend(cs.parts, [row], ExpectedOf);
  }

  lemma {:induction false} RestartDrift(cs: CycleState, rows: seq<Partition>)
    requires Tracked(cs) && forall r :: r in rows ==> PlanRow(r)
    ensures Tracked(PgRestart(cs, rows)) && Drift(PgRestart(cs, rows)) >= Drift(cs)
    decreases |rows|
  {
    if rows != [] {
      InsertedDrift(cs, rows[0]);
      RestartDrift(Inserted(cs, rows[0]), rows[1..]);
    }
  }

  /** A planned row with pages and an unknown key makes the totals fall behind. */
  lemma {:induction false} RestartFallsBehind(cs: CycleState, rows: seq<Partition>, k: nat)
    requires Tracked(cs) && DistinctKeys(rows) && forall r :: r in rows ==> PlanRow(r)
    requires k < |rows| && rows[k].expectedPages > 0 && IndexOf(cs.parts, rows[k].key) == |cs.parts|
    ensures Drift(PgRestart(cs, rows)) > Drift(cs)
    decreases |rows|
  {
    var next := Inserted(cs, rows[0]);
    InsertedDrift(cs, rows[0]);
    if k == 0 {
      RestartDrift(next, rows[1..]);
    } else {
      assert rows[1..][k - 1] == rows[k];
      assert rows[0].key != rows[k].key;
      RestartFallsBehind(next, rows[1..], k - 1);
    }
  }

  /** A cycle that is behind cannot complete now. */
  lemma BehindIsIncomplete(cs: CycleState)
    requires Tracked(cs) && Drift(cs) > 0
    ensures !PgCompletes(cs)
  {
    if forall i :: 0 <= i < |cs.parts| ==> cs.parts[i].status == Complete {
      SumSame(cs.parts, NextOf, ExpectedOf);
    }
  }

  lemma PgStepDrift(cs: CycleState, e: PgEvent)
    requires Tracked(cs) && Drift(cs) > 0 && PgAllowed(e)
    ensures Tracked(PgStep(cs, e)) && Drift(PgStep(cs, e)) >= Drift(cs)
  {
    match e
    case Restart(rows) => RestartDrift(cs, rows);
    case Finish => BehindIsIncomplete(cs);
    case SaveNext(key) =>
      var i := IndexOf(cs.parts, key);
      if i < |cs.parts| && cs.parts[i].status != Complete {
        RowUpdateSums(cs, i, SaveAt(cs, i, cs.parts[i].nextPage).parts[i]);
      }
    case Agree(key, pages) =>
      var i := IndexOf(cs.parts, key);
      if i < |cs.parts| && cs.parts[i].status != Complete {
        RowUpdateSums(cs, i, PgAgree(cs, i, pages).parts[i]);
      }
  }

  /** A running cycle that is behind stays running and behind, whatever happens next. */
  lemma {:induction false} PgRunDrift(cs: CycleState, events: seq<PgEvent>)
    requires Tracked(cs) && Drift(cs) > 0 && forall e :: e in events ==> PgAllowed(e)
    ensures Tracked(PgRun(cs, events)) && Drift(PgRun(cs, events)) >= Drift(cs)
    decreases |events|
  {
    if events != [] {
      PgStepDrift(cs, events[0]);
      PgRunDrift(PgStep(cs, events[0]), events[1..]);
    }
  }

  /** Once a restart has added an unknown partition with pages to a running cycle, no later step, agreement
      or further restart lets the cycle complete. */
  lemma RestartBlocksCompletion(cs: CycleState, rows: seq<Partition>, k: nat, events: seq<PgEvent>)
    requires Consistent(cs) && Bounded(cs) && cs.cycle.status == Running
    requires DistinctKeys(rows) && forall r :: r in rows ==> PlanRow(r)
    requires k < |rows| && rows[k].expectedPages > 0 && IndexOf(cs.parts, rows[k].key) == |cs.parts|
    requires forall e :: e in events ==> PgAllowed(e)
    ensures !PgCompletes(PgRun(PgRestart(cs, rows), events))
  {
    RestartDrift(cs, rows);
    RestartFallsBehind(cs, rows, k);
    PgRunDrift(PgRestart(cs, rows), events);
    BehindIsIncomplete(PgRun(PgRestart(cs, rows), events));
  }

  /* ---- every other cycle can be drained ---- */

  /** Draining the rows will satisfy CompleteDiscoveryCycle: a running cycle's totals lack the same number of
      rows as they lack completions and no pages; any other cycle's totals are complete and stay so. */
  predicate Drainable(cs: CycleState) {
    && DistinctKeys(cs.parts) && RowsOk(cs)
    && (if cs.cycle.status == Running then
          && cs.cycle.completedPages == Sum(cs.parts, NextOf) && Drift(cs) == 0
          && |cs.parts| - cs.cycle.partitionCount == Sum(cs.parts, CompleteOf) - cs.cycle.completedPartitions
        else TotalsComplete(cs.cycle))
  }

  function LeftOf(p: Partition): int { p.expectedPages - p.nextPage }

  lemma {:induction false} LeftNonNegative(parts: seq<Partition>)
    requires forall i :: 0 <= i < |parts| ==> parts[i].nextPage <= parts[i].expectedPages
    ensures Sum(parts, LeftOf) >= 0
  {
    if parts != [] {
      LeftNonNegative(parts[1..]);
    }
  }

  lemma SaveDrains(cs: CycleState, i: nat)
    requires Drainable(cs) && i < |cs.parts| && cs.parts[i].status != Complete
    ensures var after := PgStep(cs, SaveNext(cs.parts[i].key));
            Drainable(after) && Sum(after.parts, LeftOf) == Sum(cs.parts, LeftOf) - 1
  {
    IndexOfUnique(cs.parts, i);
    var row := SaveAt(cs, i, cs.parts[i].nextPage).parts[i];
    RowUpdateSums(cs, i, row);
    SumUpdate(cs.parts, i, row, LeftOf);
  }

  lemma DrainedCompletes(cs: CycleState)
    requires Drainable(cs) && FirstOpen(cs.parts) == |cs.parts|
    ensures PgCompletes(cs)
  {
    SumSame(cs.parts, NextOf, ExpectedOf);
    SumBounds(cs.parts, CompleteOf, 1, 1);
  }

  lemma {:induction false} Drain(cs: CycleState) returns (events: seq<PgEvent>)
    requires Drainable(cs)
    ensures forall e :: e in events ==> e.SaveNext?
    ensures PgCompletes(PgRun(cs, events))
    decreases Sum(cs.parts, LeftOf)
  {
    LeftNonNegative(cs.parts);
    var i := FirstOpen(cs.parts);
    if i == |cs.parts| {
      DrainedCompletes(cs);
      events := [];
    } else {
      var e := SaveNext(cs.parts[i].key);
      SaveDrains(cs, i);
      var rest := Drain(PgStep(cs, e));
      events := [e] + rest;
      assert events[1..] == rest;
    }
  }

  /** No unknown row of the plan has pages. */
  predicate NewRowsEmpty(cs: CycleState, rows: seq<Partition>) {
    forall k :: 0 <= k < |rows| && IndexOf(cs.parts, rows[k].key) == |cs.parts| ==> rows[k].expectedPages == 0
  }

  lemma InsertDrainable(cs: CycleState, row: Partition)
    requires Drainable(cs) && PlanRow(row)
    requires cs.cycle.status == Running && IndexOf(cs.parts, row.key) == |cs.parts| ==> row.expectedPages == 0
    ensures Drainable(Inserted(cs, row))
  {
    SumAppend(cs.parts, [row], NextOf);
    SumAppend(cs.parts, [row], ExpectedOf);
    SumAppend(cs.parts, [row], CompleteOf);
  }

  lemma {:induction false} RestartDrainable(cs: CycleState, rows: seq<Partition>)
    requires Drainable(cs) && forall r :: r in rows ==> PlanRow(r)
    requires cs.cycle.status == Running ==> NewRowsEmpty(cs, rows)
    ensures Drainable(PgRestart(cs, rows))
    decreases |rows|
  {
    if rows != [] {
      InsertDrainable(cs, rows[0]);
      var next := Inserted(cs, rows[0]);
      forall k | 0 <= k < |rows| - 1 && IndexOf(next.parts, rows[1..][k].key) == |next.parts|
        ensures cs.cycle.status == Running ==> rows[1..][k].expectedPages == 0
      {
        assert rows[1..][k] == rows[k + 1];
        StillUnknown(cs, rows[0], rows[k + 1].key);
      }
      RestartDrainable(next, rows[1..]);
    }
  }

  lemma StillUnknown(cs: CycleState, row: Partition, key: string)
    requires var next := Inserted(cs, row); IndexOf(next.parts, key) == |next.parts|
    ensures IndexOf(cs.parts, key) == |cs.parts|
  {
    var next := Inserted(cs, row);
    assert forall j :: 0 <= j < |cs.parts| ==> next.parts[j] == cs.parts[j];
  }

  /** A restarted cycle can still be completed iff it was complete already or no unknown row has pages. */
  lemma RestartCompletableIff(cs: CycleState, rows: seq<Partition>)
    requires Consistent(cs) && Bounded(cs) && (cs.cycle.status == Finished ==> PgCompletes(cs))
    requires DistinctKeys(rows) && forall r :: r in rows ==> PlanRow(r)
    ensures Completable(PgRestart(cs, rows)) <==> cs.cycle.status == Finished || NewRowsEmpty(cs, rows)
  {
    if cs.cycle.status == Finished || NewRowsEmpty(cs, rows) {
      RestartDrainable(cs, rows);
      var events := Drain(PgRestart(cs, rows));
    } else {
      var k :| 0 <= k < |rows| && IndexOf(cs.parts, rows[k].key) == |cs.parts| && rows[k].expectedPages != 0;
      assert rows[k] in rows;
      forall events: seq<PgEvent> | forall e :: e in events ==> PgAllowed(e)
        ensures !PgCompletes(PgRun(PgRestart(cs, rows), events))
      {
        RestartBlocksCompletion(cs, rows, k, events);
      }
    }
  }

  /** A finished cycle's row is frozen: after a restart it completes again exactly when its rows are drained. */
  lemma {:induction false} FinishedCompletesIff(cs: CycleState, events: seq<PgEvent>)
    requires cs.cycle.status == Finished && TotalsComplete(cs.cycle)
    ensures PgRun(cs, events).cycle == cs.cycle
    ensures PgCompletes(PgRun(cs, events)) <==> FirstOpen(PgRun(cs, events).parts) == |PgRun(cs, events).parts|
    decreases |events|
  {
    if events != [] {
      if events[0].Restart? {
        PgRestartGrows(cs, events[0].rows);
      }
      FinishedCompletesIff(PgStep(cs, events[0]), events[1..]);
    }
  }

  /* ---- runs without unknown keys ---- */

  /** What the PostgreSQL rows keep while every restart brings only known keys. */
  predicate PgInv(cs: CycleState) {
    Consistent(cs) && Bounded(cs) && (cs.cycle.status == Finished ==> PgCompletes(cs))
  }

  predicate SameKeys(a: CycleState, b: CycleState) {
    |a.parts| == |b.parts| && forall i :: 0 <= i < |a.parts| ==> a.parts[i].key == b.parts[i].key
  }

  lemma KnownInBoth(a: CycleState, b: CycleState, rows: seq<Partition>)
    requires SameKeys(a, b)
    ensures AllKnown(a, rows) <==> AllKnown(b, rows)
  {
    SameIndexes(a.parts, b.parts);
  }

  lemma PgStepKeeps(cs: CycleState, e: PgEvent)
    requires PgInv(cs) && PgAllowed(e) && (e.Restart? ==> AllKnown(cs, e.rows))
    ensures PgInv(PgStep(cs, e)) && SameKeys(cs, PgStep(cs, e))
  {
    match e
    case Restart(rows) => PgRestartGrows(cs, rows);
    case Finish => hide Sum;
    case SaveNext(key) =>
      var i := IndexOf(cs.parts, key);
      if i < |cs.parts| && cs.parts[i].status != Complete {
        SaveOpenKeeps(cs, i);
      }
    case Agree(key, pages) =>
      var i := IndexOf(cs.parts, key);
      if i < |cs.parts| && cs.parts[i].status != Complete {
        AgreeOpenKeeps(cs, i, pages);
      }
  }

  lemma SaveOpenKeeps(cs: CycleState, i: nat)
    requires PgInv(cs) && i < |cs.parts| && cs.parts[i].status != Complete
    ensures var after := PgSave(cs, i, cs.parts[i].nextPage);
            after.Accepted? && PgInv(after.cs) && SameKeys(cs, after.cs)
  {
    PgSaveKeepsIff(cs, i, cs.parts[i].nextPage);
  }

  lemma AgreeOpenKeeps(cs: CycleState, i: nat, pages: nat)
    requires PgInv(cs) && i < |cs.parts| && cs.parts[i].status != Complete
    ensures PgInv(PgAgree(cs, i, pages)) && SameKeys(cs, PgAgree(cs, i, pages))
  {
    RowUpdateSums(cs, i, PgAgree(cs, i, pages).parts[i]);
    hide Sum;
  }

  /** The rows only grow in number and the stored partition count never changes. */
  lemma {:induction false} PartsNeverShrink(cs: CycleState, events: seq<PgEvent>)
    ensures |PgRun(cs, events).parts| >= |cs.parts|
    ensures PgRun(cs, events).cycle.partitionCount == cs.cycle.partitionCount
    decreases |events|
  {
    if events != [] {
      if events[0].Restart? {
        PgRestartGrows(cs, events[0].rows);
      }
      PartsNeverShrink(PgStep(cs, events[0]), events[1..]);
    }
  }

  /** Over any sequence of saves, agreements, restarts and completions the totals agree with the rows at the end iff
      no restart brought a key the cycle did not know. */
  lemma {:induction false} PgRunConsistentIff(cs: CycleState, events: seq<PgEvent>)
    requires PgInv(cs) && forall e :: e in events ==> PgAllowed(e)
    ensures Consistent(PgRun(cs, events)) <==> forall e :: e in events && e.Restart? ==> AllKnown(cs, e.rows)
    ensures Consistent(PgRun(cs, events)) ==> PgInv(PgRun(cs, events))
    decreases |events|
  {
    if events != [] {
      var first, rest := events[0], events[1..];
      assert first in events && events == [first] + rest;
      var next := PgStep(cs, first);
      if first.Restart? && !AllKnown(cs, first.rows) {
        PgRestartGrows(cs, first.rows);
        PartsNeverShrink(next, rest);
      } else {
        PgStepKeeps(cs, first);
        hide PgInv, AllKnown, Consistent, PgStep;
        forall e | e in rest && e.Restart? ensures AllKnown(cs, e.rows) <==> AllKnown(next, e.rows) {
          KnownInBoth(cs, next, e.rows);
        }
        PgRunConsistentIff(next, rest);
      }
    }
  }
}
