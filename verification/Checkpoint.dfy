/** The ingest checkpoint: cursor text, the decision after a page, and the order of committed pages. */
module Checkpoint {
  import opened Decimal

  function FormatCursor(page: int): string { Itoa(page) }

  function ParseCursorPage(cursor: string): Parsed {
    var text := TrimSpace(cursor);
    if text == "" then Number(0)
    else
      var n := Atoi(text);
      if n.Malformed? || n.value < 0 then Malformed else n
  }

  /** A stored page number is read back unchanged. */
  lemma CursorRoundTrip(page: int)
    requires 0 <= page <= MAX_INT
    ensures ParseCursorPage(FormatCursor(page)) == Number(page)
  {
    var text := FormatCursor(page);
    assert IsDigit(text[0]) && IsDigit(text[|text| - 1]);
    TrimSpaceId(text);
    AtoiItoa(page);
  }

  datatype PageOutcome = PageOutcome(allOk: bool, currentPage: int, totalPages: int, itemCount: nat)

  datatype Decision = Decision(advance: bool, nextCursor: string, terminal: bool, reason: string)

  function Decide(o: PageOutcome): Decision {
    if !o.allOk then Decision(false, "", false, "")
    else if o.itemCount == 0 then Decision(true, FormatCursor(0), true, "empty_page")
    else if o.totalPages > 0 && o.currentPage + 1 >= o.totalPages then Decision(true, FormatCursor(0), true, "last_page")
    else Decision(true, FormatCursor(o.currentPage + 1), false, "")
  }

  /* ---- the committed pages of one scope ---- */

  datatype Commit = Commit(page: int, terminal: bool)

  /** The page that has to be committed next. */
  function NextPage(log: seq<Commit>): int {
    if log == [] || log[|log| - 1].terminal then 0 else log[|log| - 1].page + 1
  }

  predicate InOrder(log: seq<Commit>) {
    forall i :: 0 <= i < |log| ==> log[i].page == NextPage(log[..i])
  }

  lemma InOrderMore(log: seq<Commit>, terminal: bool)
    requires InOrder(log)
    ensures InOrder(log + [Commit(NextPage(log), terminal)])
  {
    var more := log + [Commit(NextPage(log), terminal)];
    forall i | 0 <= i < |more| ensures more[i].page == NextPage(more[..i]) {
      assert i < |log| ==> more[..i] == log[..i];
      assert i == |log| ==> more[..i] == log;
    }
  }

  /** Between two terminal commits the pages are 0, 1, 2, ... with no gap and no repeat. */
  lemma {:induction false} PagesBetweenTerminals(log: seq<Commit>, start: nat, i: nat)
    requires InOrder(log) && start <= i < |log|
    requires start == 0 || log[start - 1].terminal
    requires forall k :: start <= k < i ==> !log[k].terminal
    ensures log[i].page == i - start
    decreases i - start
  {
    assert i > 0 ==> log[..i][|log[..i]| - 1] == log[i - 1];
    if i > start {
      PagesBetweenTerminals(log, start, i - 1);
    }
  }

  /** The cursor the decision stores is the next page of the log that records the commit. */
  lemma DecisionFollowsLog(o: PageOutcome, log: seq<Commit>)
    requires InOrder(log) && o.currentPage == NextPage(log) && Decide(o).advance
    requires 0 <= o.currentPage < MAX_INT
    ensures var more := log + [Commit(o.currentPage, Decide(o).terminal)];
            && InOrder(more)
            && ParseCursorPage(Decide(o).nextCursor) == Number(NextPage(more))
            && (Decide(o).terminal ==> NextPage(more) == 0)
  {
    hide ParseCursorPage, FormatCursor, InOrder;
    InOrderMore(log, Decide(o).terminal);
    CursorRoundTrip(0);
    CursorRoundTrip(o.currentPage + 1);
  }

  /* ---- any sequence of runs, failed pages and aborts over one scope ---- */

  datatype Runner = NoRun | AtPage(page: int)

  datatype Scope = Scope(cursor: string, runner: Runner, log: seq<Commit>)

  datatype Event =
    | Begin                                                   // a run reads the checkpoint
    | Attempt(allOk: bool, totalPages: int, itemCount: nat)   // it processes its page
    | Abort                                                   // it stops anywhere

  function Step(s: Scope, e: Event, limit: int): Scope {
    match e
    case Abort => s.(runner := NoRun)
    case Begin =>
      if s.runner.AtPage? then s
      else
        var page := ParseCursorPage(s.cursor);
        if page.Number? then s.(runner := AtPage(page.value)) else s
    case Attempt(allOk, totalPages, itemCount) =>
      if s.runner.NoRun? || s.runner.page >= limit then s.(runner := NoRun)
      else
        var page := s.runner.page;
        var dec := Decide(PageOutcome(allOk, page, totalPages, itemCount));
        if !dec.advance then s.(runner := NoRun)
        else Scope(dec.nextCursor, if dec.terminal then NoRun else AtPage(page + 1), s.log + [Commit(page, dec.terminal)])
  }

  function Run(s: Scope, events: seq<Event>, limit: int): Scope
    decreases |events|
  {
    if events == [] then s else Run(Step(s, events[0], limit), events[1..], limit)
  }

  /** Committed pages are in order and the stored cursor is the next uncommitted page. */
  predicate ScopeOk(s: Scope) {
    && InOrder(s.log)
    && ParseCursorPage(s.cursor) == Number(NextPage(s.log))
    && (s.runner.AtPage? ==> s.runner.page == NextPage(s.log) >= 0)
  }

  lemma StepKeepsScope(s: Scope, e: Event, limit: int)
    requires ScopeOk(s) && limit <= MAX_INT
    ensures ScopeOk(Step(s, e, limit))
  {
    hide InOrder;
    if e.Attempt? && s.runner.AtPage? && s.runner.page < limit {
      var o := PageOutcome(e.allOk, s.runner.page, e.totalPages, e.itemCount);
      if Decide(o).advance {
        DecisionFollowsLog(o, s.log);
      }
    }
  }

  lemma {:induction false} ReachableScopeOk(s: Scope, events: seq<Event>, limit: int)
    requires ScopeOk(s) && limit <= MAX_INT
    ensures ScopeOk(Run(s, events, limit))
    decreases |events|
  {
    if events != [] {
      StepKeepsScope(s, events[0], limit);
      ReachableScopeOk(Step(s, events[0], limit), events[1..], limit);
    }
  }

  /** A good page with items at the last page the depth limit allows, for which HH reported no page count. */
  predicate Sticks(s: Scope, e: Event, limit: int) {
    e.Attempt? && e.allOk && e.itemCount > 0 && e.totalPages <= 0 && s.runner == AtPage(limit - 1)
  }

  /** Runner.Run caps the reported page count at the limit. */
  predicate Capped(e: Event, limit: int) {
    e.Attempt? ==> e.totalPages <= limit
  }

  /** A scope that can still make progress gets stuck by exactly that one kind of event. */
  lemma GetsStuckIff(s: Scope, e: Event, limit: int)
    requires ScopeOk(s) && limit <= MAX_INT && NextPage(s.log) < limit && Capped(e, limit)
    ensures NextPage(Step(s, e, limit).log) >= limit <==> Sticks(s, e, limit)
  {
    hide ParseCursorPage, FormatCursor, InOrder;
  }

  /** Over any sequence of runs, failures and aborts: the cursor ends at the limit, for good, iff that event
      happened on the way. */
  lemma {:induction false} RunSticksIff(s: Scope, events: seq<Event>, limit: int)
    requires ScopeOk(s) && limit <= MAX_INT && NextPage(s.log) < limit
    requires forall e :: e in events ==> Capped(e, limit)
    ensures NextPage(Run(s, events, limit).log) >= limit <==>
            exists i :: 0 <= i < |events| && Sticks(Run(s, events[..i], limit), events[i], limit)
    decreases |events|
  {
    hide ParseCursorPage, FormatCursor, InOrder, Sticks, ScopeOk, NextPage;
    if events != [] {
      var next, rest := Step(s, events[0], limit), events[1..];
      StepKeepsScope(s, events[0], limit);
      GetsStuckIff(s, events[0], limit);
      assert events[..0] == [];
      forall i | 0 <= i < |rest| ensures Run(s, events[..i + 1], limit) == Run(next, rest[..i], limit) {
        assert events[..i + 1][0] == events[0] && events[..i + 1][1..] == rest[..i];
      }
      if NextPage(next.log) >= limit {
        StuckAtLimit(next, rest, limit);
        assert Sticks(Run(s, events[..0], limit), events[0], limit);
      } else {
        RunSticksIff(next, rest, limit);
        if i :| 0 <= i < |rest| && Sticks(Run(next, rest[..i], limit), rest[i], limit) {
          assert events[i + 1] == rest[i];
          assert Sticks(Run(s, events[..i + 1], limit), events[i + 1], limit);
        }
        if i :| 0 <= i < |events| && Sticks(Run(s, events[..i], limit), events[i], limit) {
          assert i > 0;
          assert events[..i] == events[..(i - 1) + 1];
          assert Sticks(Run(next, rest[..i - 1], limit), rest[i - 1], limit);
        }
      }
    }
  }

  /** Once the cursor has reached the depth limit no later run ever commits a page again. */
  lemma {:induction false} StuckAtLimit(s: Scope, events: seq<Event>, limit: int)
    requires ScopeOk(s) && NextPage(s.log) >= limit && limit <= MAX_INT
    ensures Run(s, events, limit).log == s.log && Run(s, events, limit).cursor == s.cursor
    decreases |events|
  {
    if events != [] {
      StepKeepsScope(s, events[0], limit);
      StuckAtLimit(Step(s, events[0], limit), events[1..], limit);
    }
  }

  /** `n` good pages with items for which HH reported no page count. */
  function Uncounted(n: nat): seq<Event> {
    seq(n, _ => Attempt(true, 0, 1))
  }

  const EmptyScope := Scope("", NoRun, [])

  lemma {:induction false} UncountedAdvances(s: Scope, n: nat, limit: int)
    requires ScopeOk(s) && limit <= MAX_INT && s.runner.AtPage? && s.runner.page + n <= limit
    ensures var end := Run(s, Uncounted(n), limit);
            end.runner == AtPage(s.runner.page + n) && NextPage(end.log) == s.runner.page + n
    decreases n
  {
    hide ParseCursorPage, FormatCursor, InOrder;
    if n > 0 {
      var e := Attempt(true, 0, 1);
      StepKeepsScope(s, e, limit);
      var next := Step(s, e, limit);
      assert next.runner == AtPage(s.runner.page + 1);
      assert Uncounted(n)[0] == e && Uncounted(n)[1..] == Uncounted(n - 1);
      hide ScopeOk, Step, NextPage;
      UncountedAdvances(next, n - 1, limit);
    }
  }

  /** The stuck state is reached: one run over `limit` pages without a page count, from nothing. From then on no
      run, failure or abort commits a page or moves the cursor. */
  lemma UncountedScopeSticks(limit: int, later: seq<Event>)
    requires 0 <= limit <= MAX_INT
    ensures var stuck := Run(EmptyScope, [Begin] + Uncounted(limit), limit);
            && NextPage(stuck.log) == limit
            && Run(stuck, later, limit).log == stuck.log && Run(stuck, later, limit).cursor == stuck.cursor
  {
    assert ScopeOk(EmptyScope);
    StepKeepsScope(EmptyScope, Begin, limit);
    var started := Step(EmptyScope, Begin, limit);
    UncountedAdvances(started, limit, limit);
    var events := [Begin] + Uncounted(limit);
    assert events[0] == Begin && events[1..] == Uncounted(limit);
    ReachableScopeOk(EmptyScope, events, limit);
    StuckAtLimit(Run(EmptyScope, events, limit), later, limit);
  }
}
