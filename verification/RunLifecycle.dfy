/** The assistant run rows: every guarded UPDATE or INSERT is one atomic step on the table. */
module RunLifecycle {
  import opened Assistant

  datatype State = Queued | Running | Paused | Succeeded | Failed | Disabled | Superseded

  type RunId = nat

  datatype Cursor = Cursor(createdAt: int, id: string)

  datatype Row = Row(
    user: string, requestId: string, preference: nat, ruleset: nat, state: State,
    processed: int, total: int, cursor: Option<Cursor>,
    lease: Option<int>, finished: Option<int>, supersededFrom: Option<State>, createdAt: int)

  type Table = map<RunId, Row>

  const LEASE := 600
  const RULESET := 4

  predicate Active(r: Row) { r.state in {Queued, Running, Paused} }

  predicate Terminal(s: State) { s in {Succeeded, Failed, Disabled, Superseded} }

  datatype Event =
    | Queue(id: RunId, user: string, requestId: string, preference: Option<nat>, total: int, now: int)
    | Claim(id: RunId, now: int)
    | Pause(id: RunId)
    | Resume(id: RunId)
    | Supersede(id: RunId, user: string, current: nat, now: int)
    | Complete(id: RunId, outcome: State, processed: int, now: int)
    | Heartbeat(id: RunId, now: int)
    | Progress(id: RunId, processed: int, cursor: Option<Cursor>, now: int)
    | Recover(id: RunId, now: int)

  /* ---- one row ---- */

  predicate Claimable(r: Row, now: int) {
    r.state == Queued || (r.state == Running && r.lease.Some? && r.lease.value < now)
  }

  function Claimed(r: Row, now: int): Row { r.(state := Running, lease := Some(now + LEASE)) }

  predicate Pausable(r: Row) {
    r.state == Queued || r.state == Running || (r.state == Failed && r.processed < r.total)
  }

  function PausedRow(r: Row): Row { r.(state := Paused, lease := None, finished := None) }

  function ResumedRow(r: Row): Row { r.(state := Queued, lease := None, finished := None) }

  predicate Supersedable(r: Row, user: string, current: nat) {
    && r.user == user && (r.preference != current || r.ruleset != RULESET)
    && r.state in {Queued, Running, Paused, Failed, Succeeded}
    && (r.state == Succeeded || r.processed < r.total)
  }

  function SupersededRow(r: Row, now: int): Row {
    r.(supersededFrom := Some(r.state), state := Superseded,
       finished := if r.finished.Some? then r.finished else Some(now), lease := None)
  }

  function CompletedRow(r: Row, outcome: State, processed: int, now: int): Row {
    r.(state := outcome, finished := Some(now), processed := processed, lease := None)
  }

  /** COALESCE keeps the stored cursor when the page had no new candidate. */
  function ProgressedRow(r: Row, processed: int, cursor: Option<Cursor>, now: int): Row {
    r.(processed := processed, cursor := if cursor.Some? then cursor else r.cursor, lease := Some(now + LEASE))
  }

  predicate Recoverable(r: Row) {
    r.state == Superseded && r.supersededFrom == Some(Running) && r.processed < r.total
  }

  function RecoveredRow(r: Row): Row {
    r.(state := Queued, lease := None, finished := None, supersededFrom := None)
  }

  function DisabledRow(r: Row, now: int): Row { r.(state := Disabled, lease := None, finished := Some(now)) }

  /* ---- the table ---- */

  predicate HasRequest(t: Table, user: string, requestId: string) {
    exists k :: k in t && t[k].user == user && t[k].requestId == requestId
  }

  predicate HasActive(t: Table, user: string) {
    exists k :: k in t && t[k].user == user && Active(t[k])
  }

  /** The statement as written, before the unique indexes have their say. */
  function Raw(t: Table, e: Event): Table {
    match e
    case Queue(id, user, requestId, preference, total, now) =>
      if id in t || preference.None? || (requestId != "" && HasRequest(t, user, requestId)) || HasActive(t, user) then t
      else t[id := Row(user, requestId, preference.value, RULESET, Queued, 0, total, None, None, None, None, now)]
    case Claim(id, now) => if id in t && Claimable(t[id], now) then t[id := Claimed(t[id], now)] else t
    case Pause(id) => if id in t && Pausable(t[id]) then t[id := PausedRow(t[id])] else t
    case Resume(id) => if id in t && t[id].state == Paused then t[id := ResumedRow(t[id])] else t
    case Supersede(id, user, current, now) =>
      if id in t && Supersedable(t[id], user, current) then t[id := SupersededRow(t[id], now)] else t
    case Complete(id, outcome, processed, now) =>
      if id in t && t[id].state == Running && outcome in {Succeeded, Failed, Disabled}
      then t[id := CompletedRow(t[id], outcome, processed, now)] else t
    case Heartbeat(id, now) =>
      if id in t && t[id].state == Running then t[id := t[id].(lease := Some(now + LEASE))] else t
    case Progress(id, processed, cursor, now) =>
      if id in t && t[id].state == Running then t[id := ProgressedRow(t[id], processed, cursor, now)] else t
    case Recover(id, now) =>
      if id in t && Recoverable(t[id])
      then map k | k in t :: RecoverAt(t, id, k, now)
      else t
  }

  function RecoverAt(t: Table, id: RunId, k: RunId, now: int): Row
    requires id in t && k in t
  {
    if k == id then RecoveredRow(t[id])
    else if t[k].user == t[id].user && Active(t[k]) then DisabledRow(t[k], now)
    else t[k]
  }

  /** assistant_runs_one_active_per_user. */
  predicate OneActive(t: Table) {
    forall i, j :: i in t && j in t && i != j && t[i].user == t[j].user ==> !(Active(t[i]) && Active(t[j]))
  }

  /** assistant_runs_request_idempotency. */
  predicate OneRequest(t: Table) {
    forall i, j :: i in t && j in t && i != j && t[i].user == t[j].user && t[i].requestId != "" ==>
      t[i].requestId != t[j].requestId
  }

  /** A statement that would violate a unique index fails and changes nothing. */
  function Step(t: Table, e: Event): Table {
    if OneActive(Raw(t, e)) && OneRequest(Raw(t, e)) then Raw(t, e) else t
  }

  function Run(t: Table, events: seq<Event>): Table
    decreases |events|
  {
    if events == [] then t else Run(Step(t, events[0]), events[1..])
  }

  /* ---- invariants ---- */

  /** The lease belongs to running rows, the finish time to finished rows, the origin to superseded ones. */
  predicate RowOk(r: Row) {
    && (r.lease.Some? <==> r.state == Running)
    && (r.finished.Some? <==> Terminal(r.state))
    && (r.supersededFrom.Some? <==> r.state == Superseded)
  }

  predicate TableOk(t: Table) {
    (forall k :: k in t ==> RowOk(t[k])) && OneActive(t) && OneRequest(t)
  }

  lemma RawRowsOk(t: Table, e: Event)
    requires forall k :: k in t ==> RowOk(t[k])
    ensures forall k :: k in Raw(t, e) ==> RowOk(Raw(t, e)[k])
  {
  }

  lemma SameOwnerUpdate(t: Table, id: RunId, r: Row)
    requires OneActive(t) && OneRequest(t) && id in t
    requires r.user == t[id].user && r.requestId == t[id].requestId && (Active(r) ==> Active(t[id]))
    ensures OneActive(t[id := r]) && OneRequest(t[id := r])
  {
    hide Active;
  }

  lemma QueueKeepsIndexes(t: Table, id: RunId, r: Row)
    requires OneActive(t) && OneRequest(t) && id !in t && !HasActive(t, r.user)
    requires r.requestId != "" ==> !HasRequest(t, r.user, r.requestId)
    ensures OneActive(t[id := r]) && OneRequest(t[id := r])
  {
    hide Active;
  }

  lemma RecoverKeepsIndexes(t: Table, id: RunId, now: int)
    requires OneActive(t) && OneRequest(t) && id in t && Recoverable(t[id])
    ensures OneActive(Raw(t, Recover(id, now))) && OneRequest(Raw(t, Recover(id, now)))
  {
    var u := Raw(t, Recover(id, now));
    forall i, j | i in u && j in u && i != j && u[i].user == u[j].user
      ensures !(Active(u[i]) && Active(u[j])) && (u[i].requestId != "" ==> u[i].requestId != u[j].requestId)
    {
      assert u[i] == RecoverAt(t, id, i, now) && u[j] == RecoverAt(t, id, j, now);
    }
  }

  /** Only the failed-to-paused edge can make a second active run; every other statement keeps the
      index on its own. */
  lemma OnlyPauseNeedsTheIndex(t: Table, e: Event)
    requires TableOk(t)
    ensures !(e.Pause? && e.id in t && t[e.id].state == Failed) ==> OneActive(Raw(t, e)) && OneRequest(Raw(t, e))
  {
    var u := Raw(t, e);
    if u == t || (e.Pause? && e.id in t && t[e.id].state == Failed) {
    } else if e.Queue? {
      QueueKeepsIndexes(t, e.id, u[e.id]);
    } else if e.Recover? {
      RecoverKeepsIndexes(t, e.id, e.now);
    } else {
      SameOwnerUpdate(t, e.id, u[e.id]);
    }
  }

  /** Pausing an unfinished failed run keeps "one active run" exactly when the user has no other one. */
  lemma PauseFailedIff(t: Table, id: RunId)
    requires TableOk(t) && id in t && t[id].state == Failed && t[id].processed < t[id].total
    ensures OneActive(Raw(t, Pause(id))) <==> !HasActive(t, t[id].user)
  {
    var u := Raw(t, Pause(id));
    if HasActive(t, t[id].user) {
      var k :| k in t && t[k].user == t[id].user && Active(t[k]);
      assert u[k] == t[k] && Active(u[id]);
    }
  }

  lemma StepKeepsTable(t: Table, e: Event)
    requires TableOk(t)
    ensures TableOk(Step(t, e))
  {
    RawRowsOk(t, e);
  }

  /** Every reachable table: leases, finish times and origins match the states, and a user has at most
      one queued, running or paused run. */
  lemma {:induction false} ReachableTableOk(t: Table, events: seq<Event>)
    requires TableOk(t)
    ensures TableOk(Run(t, events))
    decreases |events|
  {
    if events != [] {
      StepKeepsTable(t, events[0]);
      ReachableTableOk(Step(t, events[0]), events[1..]);
    }
  }

  /* ---- what no run ever does ---- */

  lemma {:induction false} DisabledForever(t: Table, events: seq<Event>, id: RunId)
    requires id in t && t[id].state == Disabled
    ensures id in Run(t, events) && Run(t, events)[id] == t[id]
    decreases |events|
  {
    if events != [] {
      DisabledForever(Step(t, events[0]), events[1..], id);
    }
  }

  /** A superseded row is left only by recovering an unfinished run that was running. */
  lemma SupersededLeftByRecovery(t: Table, e: Event, id: RunId)
    requires id in t && t[id].state == Superseded && id in Step(t, e) && Step(t, e)[id] != t[id]
    ensures e.Recover? && e.id == id && Recoverable(t[id]) && Step(t, e)[id] == RecoveredRow(t[id])
  {
  }

  /** So a run that was superseded in any other state is superseded for ever. */
  lemma {:induction false} SupersededForever(t: Table, events: seq<Event>, id: RunId)
    requires id in t && t[id].state == Superseded && !Recoverable(t[id])
    ensures id in Run(t, events) && Run(t, events)[id] == t[id]
    decreases |events|
  {
    if events != [] {
      SupersededForever(Step(t, events[0]), events[1..], id);
    }
  }

  /** Worker writes to a row that is not running change nothing. */
  lemma WorkerWritesNeedRunning(t: Table, e: Event)
    requires e.Complete? || e.Heartbeat? || e.Progress?
    requires e.id in t ==> t[e.id].state != Running
    ensures Step(t, e) == t
  {
  }

  predicate SameIdentity(a: Row, b: Row) {
    a.user == b.user && a.requestId == b.requestId && a.total == b.total && a.preference == b.preference
    && a.createdAt == b.createdAt
  }

  lemma StepPersists(t: Table, e: Event, id: RunId)
    requires id in t
    ensures id in Step(t, e) && SameIdentity(Step(t, e)[id], t[id])
  {
    hide OneActive, OneRequest, Claimable, Pausable, Supersedable, Recoverable, HasActive, HasRequest;
  }

  /** No row is ever deleted, and a row keeps its owner, request, preference and snapshot size. */
  lemma {:induction false} RowsPersist(t: Table, events: seq<Event>, id: RunId)
    requires id in t
    ensures id in Run(t, events) && SameIdentity(Run(t, events)[id], t[id])
    decreases |events|
  {
    if events != [] {
      StepPersists(t, events[0], id);
      hide Step;
      RowsPersist(Step(t, events[0]), events[1..], id);
    }
  }

  /** The repository: each method is one statement, or one transaction for the recovery. */
  class Runs {
    var rows: Table

    constructor ()
      ensures rows == map[] && TableOk(rows)
    {
      rows := map[];
    }

    /** Returns the run of a repeated request, a new run, or nothing when one is already active. */
    method QueueAnalysis(id: RunId, user: string, requestId: string, preference: Option<nat>, total: int, now: int)
      returns (run: Option<RunId>)
      requires TableOk(rows) && id !in rows
      modifies this
      ensures TableOk(rows) && rows == Step(old(rows), Queue(id, user, requestId, preference, total, now))
      ensures run.Some? ==> run.value in rows && rows[run.value].user == user
      ensures requestId != "" && HasRequest(old(rows), user, requestId) ==>
                run.Some? && run.value in old(rows) && rows == old(rows)
      ensures run.None? ==> preference.None? || HasActive(old(rows), user)
      ensures rows != old(rows) ==>
                && run == Some(id) && preference.Some?
                && rows == old(rows)[id := Row(user, requestId, preference.value, 4, Queued, 0, total, None, None, None, None, now)]
                && forall k :: k in old(rows) && old(rows)[k].user == user ==> old(rows)[k].state !in {Queued, Running, Paused}
    {
      ghost var e := Queue(id, user, requestId, preference, total, now);
      OnlyPauseNeedsTheIndex(rows, e);
      StepKeepsTable(rows, e);
      if requestId != "" && HasRequest(rows, user, requestId) {
        var k :| k in rows && rows[k].user == user && rows[k].requestId == requestId;
        return Some(k);
      }
      if preference.None? || HasActive(rows, user) {
        return None;
      }
      rows := rows[id := Row(user, requestId, preference.value, RULESET, Queued, 0, total, None, None, None, None, now)];
      return Some(id);
    }

    /** ORDER BY created_at, id. */
    static predicate Older(t: Table, a: RunId, b: RunId)
      requires a in t && b in t
    {
      t[a].createdAt < t[b].createdAt || (t[a].createdAt == t[b].createdAt && a < b)
    }

    /** Claims the oldest run that is queued, or running with an expired lease. */
    method ClaimAssistantRun(now: int) returns (run: Option<RunId>)
      requires TableOk(rows)
      modifies this
      ensures TableOk(rows)
      ensures run.None? ==> rows == old(rows) && forall k :: k in rows ==> !Claimable(rows[k], now)
      ensures run.Some? ==>
                && run.value in old(rows) && Claimable(old(rows)[run.value], now)
                && (forall k :: k in old(rows) && Claimable(old(rows)[k], now) ==> !Older(old(rows), k, run.value))
                && rows == Step(old(rows), Claim(run.value, now))
      ensures run.None? ==> forall k :: k in rows ==>
                rows[k].state != Queued && (rows[k].state == Running ==> rows[k].lease.Some? && rows[k].lease.value >= now)
      ensures run.Some? ==>
                var r := old(rows)[run.value];
                && (r.state == Queued || (r.state == Running && r.lease.Some? && r.lease.value < now))
                && rows == old(rows)[run.value := r.(state := Running, lease := Some(now + 600))]
    {
      run := OldestClaimable(now);
      if run.Some? {
        var k := run.value;
        OnlyPauseNeedsTheIndex(rows, Claim(k, now));
        StepKeepsTable(rows, Claim(k, now));
        rows := rows[k := Claimed(rows[k], now)];
      }
    }

    method OldestClaimable(now: int) returns (run: Option<RunId>)
      ensures run.None? ==> forall k :: k in rows ==> !Claimable(rows[k], now)
      ensures run.Some? ==>
                && run.value in rows && Claimable(rows[run.value], now)
                && forall k :: k in rows && Claimable(rows[k], now) ==> !Older(rows, k, run.value)
    {
      run := None;
      var todo := rows.Keys;
      while todo != {}
        invariant todo <= rows.Keys
        invariant run.None? ==> forall k :: k in rows && k !in todo ==> !Claimable(rows[k], now)
        invariant run.Some? ==>
                    && run.value in rows && Claimable(rows[run.value], now)
                    && forall k :: k in rows && k !in todo && Claimable(rows[k], now) ==> !Older(rows, k, run.value)
        decreases |todo|
      {
        var k :| k in todo;
        if Claimable(rows[k], now) && (run.None? || Older(rows, k, run.value)) {
          run := Some(k);
        }
        todo := todo - {k};
      }
    }

    /** Fails when the run is not pausable, or when the unique index refuses a second active run. */
    method PauseAssistantRun(id: RunId) returns (ok: bool)
      requires TableOk(rows)
      modifies this
      ensures TableOk(rows) && rows == Step(old(rows), Pause(id))
      ensures ok <==> id in old(rows) && Pausable(old(rows)[id])
                      && (old(rows)[id].state == Failed ==> !HasActive(old(rows), old(rows)[id].user))
      ensures ok ==>
                var r := old(rows)[id];
                && (r.state in {Queued, Running} || (r.state == Failed && r.processed < r.total))
                && rows == old(rows)[id := r.(state := Paused, lease := None, finished := None)]
      ensures !ok ==> rows == old(rows) && (id in rows ==> rows[id].state !in {Queued, Running})
    {
      StepKeepsTable(rows, Pause(id));
      OnlyPauseNeedsTheIndex(rows, Pause(id));
      if id !in rows || !Pausable(rows[id]) {
        return false;
      }
      if rows[id].state == Failed {
        PauseFailedIff(rows, id);
        if HasActive(rows, rows[id].user) {
          return false;
        }
        PausedRequests(rows, id);
      }
      rows := rows[id := PausedRow(rows[id])];
      ok := true;
    }

    method ResumeAssistantRun(id: RunId) returns (ok: bool)
      requires TableOk(rows)
      modifies this
      ensures TableOk(rows) && rows == Step(old(rows), Resume(id))
      ensures ok <==> id in old(rows) && old(rows)[id].state == Paused
      ensures rows == if ok then old(rows)[id := old(rows)[id].(state := Queued, lease := None, finished := None)] else old(rows)
    {
      StepKeepsTable(rows, Resume(id));
      OnlyPauseNeedsTheIndex(rows, Resume(id));
      ok := id in rows && rows[id].state == Paused;
      if ok {
        rows := rows[id := ResumedRow(rows[id])];
      }
    }

    method SupersedeAssistantRun(id: RunId, user: string, current: nat, now: int) returns (ok: bool)
      requires TableOk(rows)
      modifies this
      ensures TableOk(rows) && rows == Step(old(rows), Supersede(id, user, current, now))
      ensures ok <==> id in old(rows) && Supersedable(old(rows)[id], user, current)
      ensures ok <==>
                && id in old(rows)
                && var r := old(rows)[id];
                && r.user == user && (r.preference != current || r.ruleset != 4)
                && (r.state == Succeeded || (r.state in {Queued, Running, Paused, Failed} && r.processed < r.total))
      ensures rows == if ok then
                        var r := old(rows)[id];
                        old(rows)[id := r.(supersededFrom := Some(r.state), state := Superseded, lease := None,
                                           finished := Some(if r.finished.Some? then r.finished.value else now))]
                      else old(rows)
    {
      StepKeepsTable(rows, Supersede(id, user, current, now));
      OnlyPauseNeedsTheIndex(rows, Supersede(id, user, current, now));
      ok := id in rows && Supersedable(rows[id], user, current);
      if ok {
        rows := rows[id := SupersededRow(rows[id], now)];
      }
    }

    /** Silently does nothing unless the run is running; refuses any other target state. */
    method CompleteAssistantRun(id: RunId, outcome: State, processed: int, now: int) returns (ok: bool)
      requires TableOk(rows)
      modifies this
      ensures TableOk(rows) && rows == Step(old(rows), Complete(id, outcome, processed, now))
      ensures ok <==> outcome in {Succeeded, Failed, Disabled}
      ensures rows == if ok && id in old(rows) && old(rows)[id].state == Running then
                        old(rows)[id := old(rows)[id].(state := outcome, finished := Some(now), processed := processed, lease := None)]
                      else old(rows)
    {
      StepKeepsTable(rows, Complete(id, outcome, processed, now));
      OnlyPauseNeedsTheIndex(rows, Complete(id, outcome, processed, now));
      if outcome != Succeeded && outcome != Failed && outcome != Disabled {
        return false;
      }
      if id in rows && rows[id].state == Running {
        rows := rows[id := CompletedRow(rows[id], outcome, processed, now)];
      }
      ok := true;
    }

    method HeartbeatAssistantRun(id: RunId, now: int) returns (ok: bool)
      requires TableOk(rows)
      modifies this
      ensures TableOk(rows) && rows == Step(old(rows), Heartbeat(id, now))
      ensures ok <==> id in old(rows) && old(rows)[id].state == Running
      ensures rows == if ok then old(rows)[id := old(rows)[id].(lease := Some(now + 600))] else old(rows)
    {
      StepKeepsTable(rows, Heartbeat(id, now));
      OnlyPauseNeedsTheIndex(rows, Heartbeat(id, now));
      ok := id in rows && rows[id].state == Running;
      if ok {
        rows := rows[id := rows[id].(lease := Some(now + LEASE))];
      }
    }

    method UpdateAssistantRunProgress(id: RunId, processed: int, cursor: Option<Cursor>, now: int) returns (ok: bool)
      requires TableOk(rows)
      modifies this
      ensures TableOk(rows) && rows == Step(old(rows), Progress(id, processed, cursor, now))
      ensures ok <==> id in old(rows) && old(rows)[id].state == Running
      ensures rows == if ok then
                        old(rows)[id := old(rows)[id].(processed := processed, lease := Some(now + 600),
                                                       cursor := if cursor.Some? then cursor else old(rows)[id].cursor)]
                      else old(rows)
    {
      StepKeepsTable(rows, Progress(id, processed, cursor, now));
      OnlyPauseNeedsTheIndex(rows, Progress(id, processed, cursor, now));
      ok := id in rows && rows[id].state == Running;
      if ok {
        rows := rows[id := ProgressedRow(rows[id], processed, cursor, now)];
      }
    }

    /** recoverAssistantRun: disable the user's other active runs, then requeue this one. */
    method RecoverAssistantRun(id: RunId, now: int) returns (ok: bool)
      requires TableOk(rows)
      modifies this
      ensures TableOk(rows) && rows == Step(old(rows), Recover(id, now))
      ensures ok <==> id in old(rows) && Recoverable(old(rows)[id])
      ensures ok ==> Recovered(old(rows), rows, id, now)
      ensures !ok ==> rows == old(rows)
    {
      hide TableOk, OneActive, OneRequest, Recovered;
      StepKeepsTable(rows, Recover(id, now));
      OnlyPauseNeedsTheIndex(rows, Recover(id, now));
      if id !in rows || !Recoverable(rows[id]) {
        return false;
      }
      ghost var before := rows;
      var user := rows[id].user;
      var todo := rows.Keys;
      while todo != {}
        invariant rows.Keys == before.Keys && todo <= before.Keys
        invariant forall k :: k in before ==>
                    rows[k] == if k in todo || k == id then before[k] else RecoverAt(before, id, k, now)
        decreases todo
      {
        var k :| k in todo;
        todo := todo - {k};
        if k != id && rows[k].user == user && Active(rows[k]) {
          rows := rows[k := DisabledRow(rows[k], now)];
        }
      }
      rows := rows[id := RecoveredRow(rows[id])];
      assert rows == Raw(before, Recover(id, now));
      RecoveredIs(before, id, now);
      ok := true;
    }
  }

  /** The superseded run was running and unfinished and is queued again; the user's other active runs are disabled. */
  predicate Recovered(t: Table, u: Table, id: RunId, now: int) {
    && id in t && u.Keys == t.Keys
    && t[id].state == Superseded && t[id].supersededFrom == Some(Running) && t[id].processed < t[id].total
    && u[id] == t[id].(state := Queued, lease := None, finished := None, supersededFrom := None)
    && forall k :: k in t && k != id ==>
         u[k] == if t[k].user == t[id].user && t[k].state in {Queued, Running, Paused}
                 then t[k].(state := Disabled, lease := None, finished := Some(now)) else t[k]
  }

  lemma RecoveredIs(t: Table, id: RunId, now: int)
    requires id in t && Recoverable(t[id])
    ensures Recovered(t, Raw(t, Recover(id, now)), id, now)
  {
  }

  lemma PausedRequests(t: Table, id: RunId)
    requires TableOk(t) && id in t && Pausable(t[id])
    ensures OneRequest(Raw(t, Pause(id)))
  {
  }
}
