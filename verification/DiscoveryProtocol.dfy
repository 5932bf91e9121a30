/** The discovery driver as a state machine over its store calls, with a crash possible between any two.
    One driver at a time works on the cycle; a restart plans again and resumes from the stored rows. */
module DiscoveryProtocol {
  import opened Sums
  import opened DiscoveryCycle

  datatype Driver =
    | Stopped
    | AtLoop
    | Holding(part: Partition) // NextDiscoveryPartition answered
    | Ready(part: Partition)   // page counts agree, about to save
    | Drained                  // NextDiscoveryPartition found nothing

  datatype Commit = Commit(key: string, page: int)

  datatype Stored = NoCycle | HasCycle(cs: CycleState)

  datatype Sys = Sys(stored: Stored, driver: Driver, log: seq<Commit>)

  datatype Event =
    | Start(cycle: Cycle, rows: seq<Partition>)
    | Next
    | Reconcile(reported: int)
    | SavePage
    | Crash

  const Initial := Sys(NoCycle, Stopped, [])

  /** A plan row before any page was fetched. */
  predicate Fresh(p: Partition) {
    p.nextPage == 0 && p.status == if p.expectedPages == 0 then Complete else Pending
  }

  predicate FreshPlan(rows: seq<Partition>) {
    DistinctKeys(rows) && forall i :: 0 <= i < |rows| ==> Fresh(rows[i])
  }

  /** The cycle row that RunDailyDiscovery hands to StartDiscoveryCycle for a plan. */
  function StartState(cycle: Cycle, rows: seq<Partition>): CycleState {
    CycleState(
      cycle.(partitionCount := |rows|, completedPartitions := Sum(rows, CompleteOf),
             expectedPages := Sum(rows, ExpectedOf), completedPages := 0, status := Running),
      rows)
  }

  predicate Allowed(e: Event) {
    e.Start? ==> FreshPlan(e.rows)
  }

  function Step(s: Sys, e: Event): Sys {
    match e
    case Crash => s.(driver := Stopped)
    case Start(cycle, rows) =>
      if !s.driver.Stopped? then s
      else if s.stored.HasCycle? then s.(driver := AtLoop)
      else Sys(HasCycle(StartState(cycle, rows)), AtLoop, s.log)
    case Next =>
      if s.stored.NoCycle? || !s.driver.AtLoop? then s
      else
        var i := FirstOpen(s.stored.cs.parts);
        s.(driver := if i == |s.stored.cs.parts| then Drained else Holding(s.stored.cs.parts[i]))
    case Reconcile(reported) =>
      if s.stored.NoCycle? || !s.driver.Holding? then s
      else
        var part := s.driver.part;
        if reported == part.expectedPages then s.(driver := Ready(part))
        else if part.nextPage != 0 then s.(driver := Stopped)
        else
          Sys(HasCycle(SetExpected(s.stored.cs, part.key, reported)),
              if reported == 0 then AtLoop else Ready(part.(expectedPages := reported)),
              s.log)
    case SavePage =>
      if s.stored.NoCycle? || !s.driver.Ready? then s
      else
        var part := s.driver.part;
        Sys(HasCycle(Save(s.stored.cs, part.key, part.nextPage)), AtLoop,
            s.log + [Commit(part.key, part.nextPage)])
  }

  function Run(s: Sys, events: seq<Event>): Sys
    decreases |events|
  {
    if events == [] then s else Run(Step(s, events[0]), events[1..])
  }

  /** The pages committed for one partition, in commit order. */
  function PagesOf(log: seq<Commit>, key: string): seq<int> {
    if log == [] then []
    else
      var last := log[|log| - 1];
      PagesOf(log[..|log| - 1], key) + (if last.key == key then [last.page] else [])
  }

  function UpTo(n: int): seq<int> {
    if n <= 0 then [] else UpTo(n - 1) + [n - 1]
  }

  predicate OpenRow(cs: CycleState, i: nat, part: Partition) {
    && i < |cs.parts|
    && cs.parts[i].key == part.key && cs.parts[i].nextPage == part.nextPage
    && cs.parts[i].expectedPages == part.expectedPages && cs.parts[i].status != Complete
  }

  predicate DriverAgrees(driver: Driver, cs: CycleState) {
    match driver
    case Holding(part) => OpenRow(cs, IndexOf(cs.parts, part.key), part)
    case Ready(part) => OpenRow(cs, IndexOf(cs.parts, part.key), part)
    case Drained => FirstOpen(cs.parts) == |cs.parts|
    case _ => true
  }

  /** Each row's pages were committed as 0, 1, ..., nextPage - 1, once each and in order. */
  predicate LogAgrees(log: seq<Commit>, parts: seq<Partition>) {
    && (forall i :: 0 <= i < |parts| ==>
         parts[i].nextPage >= 0 && PagesOf(log, parts[i].key) == UpTo(parts[i].nextPage))
    && (forall c :: c in log ==> IndexOf(parts, c.key) < |parts|)
  }

  predicate Inv(s: Sys) {
    match s.stored
    case NoCycle => s.driver == Stopped && s.log == []
    case HasCycle(cs) => Consistent(cs) && DriverAgrees(s.driver, cs) && LogAgrees(s.log, cs.parts)
  }

  lemma {:induction false} NoPages(log: seq<Commit>, key: string)
    requires forall c :: c in log ==> c.key != key
    ensures PagesOf(log, key) == []
  {
    if log != [] {
      NoPages(log[..|log| - 1], key);
    }
  }

  lemma StartConsistent(cycle: Cycle, rows: seq<Partition>)
    requires FreshPlan(rows)
    ensures Consistent(StartState(cycle, rows)) && LogAgrees([], rows)
  {
    SumBounds(rows, NextOf, 0, 0);
  }

  lemma ReconcileStep(s: Sys, reported: int)
    requires Inv(s) && s.stored.HasCycle? && s.driver.Holding?
    ensures Inv(Step(s, Reconcile(reported)))
  {
    var cs, part := s.stored.cs, s.driver.part;
    if reported != part.expectedPages && part.nextPage == 0 {
      var i := IndexOf(cs.parts, part.key);
      SetExpectedKeepsIff(cs, i, reported);
      SetExpectedOne(cs, i, reported);
      var after := SetExpectedAt(cs, i, reported);
      assert forall j :: 0 <= j < |cs.parts| ==> after.parts[j].key == cs.parts[j].key;
      SameIndexes(cs.parts, after.parts);
    }
  }

  lemma SameIndexes(a: seq<Partition>, b: seq<Partition>)
    requires |a| == |b| && forall j :: 0 <= j < |a| ==> a[j].key == b[j].key
    ensures forall key :: IndexOf(a, key) == IndexOf(b, key)
  {
    forall key ensures IndexOf(a, key) == IndexOf(b, key) {
      var i, k := IndexOf(a, key), IndexOf(b, key);
      if i < |a| { assert b[i].key == key; }
      if k < |b| { assert a[k].key == key; }
    }
  }

  lemma SaveStep(s: Sys)
    requires Inv(s) && s.stored.HasCycle? && s.driver.Ready?
    ensures Inv(Step(s, SavePage))
  {
    var cs, part := s.stored.cs, s.driver.part;
    var i := IndexOf(cs.parts, part.key);
    SaveKeepsIff(cs, i, part.nextPage);
    hide Consistent;
    var after := SaveAt(cs, i, part.nextPage);
    assert Save(cs, part.key, part.nextPage) == after;
    SameIndexes(cs.parts, after.parts);
    var log := s.log + [Commit(part.key, part.nextPage)];
    assert log[..|log| - 1] == s.log;
    forall j | 0 <= j < |after.parts|
      ensures after.parts[j].nextPage >= 0 && PagesOf(log, after.parts[j].key) == UpTo(after.parts[j].nextPage)
    {
      assert j != i ==> cs.parts[j].key != part.key;
      assert PagesOf(s.log, cs.parts[j].key) == UpTo(cs.parts[j].nextPage);
    }
  }

  lemma StepKeepsInv(s: Sys, e: Event)
    requires Inv(s) && Allowed(e)
    ensures Inv(Step(s, e))
  {
    match e
    case Crash =>
    case Start(cycle, rows) => StartConsistent(cycle, rows);
    case Next =>
      if s.stored.HasCycle? && s.driver.AtLoop? {
        var parts := s.stored.cs.parts;
        var i := FirstOpen(parts);
        if i < |parts| {
          IndexOfUnique(parts, i);
        }
      }
    case Reconcile(reported) =>
      if s.stored.HasCycle? && s.driver.Holding? {
        ReconcileStep(s, reported);
      }
    case SavePage =>
      if s.stored.HasCycle? && s.driver.Ready? {
        SaveStep(s);
      }
  }

  /** In every state the driver can reach, whatever HH reports and wherever it crashes and restarts,
      the cached totals agree with the rows and every row's pages were committed once, in order. */
  lemma {:induction false} ReachableConsistent(s: Sys, events: seq<Event>)
    requires Inv(s) && forall e :: e in events ==> Allowed(e)
    ensures Inv(Run(s, events))
    decreases |events|
  {
    if events != [] {
      StepKeepsInv(s, events[0]);
      ReachableConsistent(Step(s, events[0]), events[1..]);
    }
  }

  lemma ReachableFromStart(events: seq<Event>)
    requires forall e :: e in events ==> Allowed(e)
    ensures Inv(Run(Initial, events))
  {
    ReachableConsistent(Initial, events);
  }

  /* ---- page counts that are never negative stay in bounds ---- */

  predicate NonNegative(e: Event) {
    match e
    case Start(_, rows) => forall i :: 0 <= i < |rows| ==> rows[i].expectedPages >= 0
    case Reconcile(reported) => reported >= 0
    case _ => true
  }

  predicate InBounds(s: Sys) {
    s.stored.HasCycle? ==> Bounded(s.stored.cs)
  }

  lemma StepKeepsBounds(s: Sys, e: Event)
    requires Inv(s) && InBounds(s) && Allowed(e) && NonNegative(e)
    ensures InBounds(Step(s, e))
  {
    if e.Reconcile? && s.stored.HasCycle? && s.driver.Holding? && s.driver.part.nextPage == 0 {
      SetExpectedOne(s.stored.cs, IndexOf(s.stored.cs.parts, s.driver.part.key), e.reported);
    }
  }

  /** If HH never reports a negative count, no row ever passes its expected page count. */
  lemma {:induction false} ReachableBounded(s: Sys, events: seq<Event>)
    requires Inv(s) && InBounds(s)
    requires forall e :: e in events ==> Allowed(e) && NonNegative(e)
    ensures InBounds(Run(s, events))
    decreases |events|
  {
    if events != [] {
      StepKeepsInv(s, events[0]);
      StepKeepsBounds(s, events[0]);
      ReachableBounded(Step(s, events[0]), events[1..]);
    }
  }

  /* ---- termination of the loop ---- */

  /** One error-free pass over open row `i` when HH reports `reported` pages. */
  function Pass(cs: CycleState, i: nat, reported: int): CycleState
    requires i < |cs.parts|
  {
    var part := cs.parts[i];
    var agreed := if reported == part.expectedPages then cs else SetExpected(cs, part.key, reported);
    if reported == 0 && reported != part.expectedPages then agreed
    else Save(agreed, part.key, part.nextPage)
  }

  /** The passes a row can still take when HH never reports more than `cap` pages. */
  function Remaining(p: Partition, cap: nat): nat {
    if p.status == Complete || cap <= p.nextPage then 0 else cap - p.nextPage
  }

  function RemainingBy(cap: nat): Partition -> int {
    (p: Partition) => Remaining(p, cap)
  }

  lemma PassCloses(cs: CycleState, i: nat)
    requires i < |cs.parts| && Consistent(cs)
    requires cs.parts[i].status != Complete && cs.parts[i].nextPage == 0
    ensures var after := Pass(cs, i, 0);
            && Consistent(after)
            && after.parts == cs.parts[i := cs.parts[i].(expectedPages := 0, status := Complete)]
            && after.cycle.completedPages == cs.cycle.completedPages
  {
    SetExpectedKeepsIff(cs, i, 0);
    SetExpectedOne(cs, i, 0);
  }

  /** The page counts agree, before or after SetDiscoveryExpectedPages. */
  lemma AgreedRow(cs: CycleState, i: nat, reported: int)
    requires i < |cs.parts| && Consistent(cs) && cs.parts[i].status != Complete
    requires reported != 0
    requires reported == cs.parts[i].expectedPages || cs.parts[i].nextPage == 0
    ensures var part := cs.parts[i];
            var agreed := if reported == part.expectedPages then cs else SetExpected(cs, part.key, reported);
            && Consistent(agreed)
            && agreed.parts == cs.parts[i := part.(expectedPages := reported)]
            && agreed.cycle.completedPages == cs.cycle.completedPages
  {
    SetExpectedKeepsIff(cs, i, reported);
    SetExpectedOne(cs, i, reported);
  }

  lemma PassSaves(cs: CycleState, i: nat, reported: int)
    requires i < |cs.parts| && Consistent(cs) && cs.parts[i].status != Complete
    requires reported != 0
    requires reported == cs.parts[i].expectedPages || cs.parts[i].nextPage == 0
    ensures var part := cs.parts[i];
            var after := Pass(cs, i, reported);
            && Consistent(after)
            && after.parts == cs.parts[i := part.(
                 expectedPages := reported, nextPage := part.nextPage + 1,
                 status := if part.nextPage + 1 == reported then Complete else InProgress)]
            && after.cycle.completedPages == cs.cycle.completedPages + 1
  {
    var part := cs.parts[i];
    AgreedRow(cs, i, reported);
    var agreed := if reported == part.expectedPages then cs else SetExpected(cs, part.key, reported);
    assert agreed.parts[i] == part.(expectedPages := reported);
    IndexOfUnique(agreed.parts, i);
    SaveKeepsIff(agreed, i, part.nextPage);
  }

  /** What rows keep even when HH reports a negative count: they stay within their page count or count down from
      a negative one. */
  predicate Paged(cs: CycleState) {
    forall i :: 0 <= i < |cs.parts| ==>
      0 <= cs.parts[i].nextPage && (cs.parts[i].nextPage <= cs.parts[i].expectedPages || cs.parts[i].expectedPages < 0)
  }

  /** The page count of the row the driver works on. */
  function OpenCount(parts: seq<Partition>): int {
    var i := FirstOpen(parts);
    if i < |parts| then parts[i].expectedPages else 0
  }

  /** Every error-free pass uses up a unit of the remaining passes, or repeats the negative count of a row that is
      past the cap already. */
  lemma PassConsumes(cs: CycleState, i: nat, reported: int, cap: nat)
    requires i < |cs.parts| && Consistent(cs) && Paged(cs) && i == FirstOpen(cs.parts)
    requires reported <= cap && cap > 0
    requires reported == cs.parts[i].expectedPages || cs.parts[i].nextPage == 0
    ensures var after := Pass(cs, i, reported);
            && Paged(after)
            && (|| Sum(after.parts, RemainingBy(cap)) < Sum(cs.parts, RemainingBy(cap))
                || (&& Sum(after.parts, RemainingBy(cap)) == Sum(cs.parts, RemainingBy(cap))
                    && reported == OpenCount(cs.parts) == OpenCount(after.parts) < 0))
    ensures reported >= 0 ==> Sum(Pass(cs, i, reported).parts, RemainingBy(cap)) < Sum(cs.parts, RemainingBy(cap))
  {
    if reported == 0 {
      PassCloses(cs, i);
    } else {
      PassSaves(cs, i, reported);
    }
    var after := Pass(cs, i, reported);
    SumUpdate(cs.parts, i, after.parts[i], RemainingBy(cap));
    if reported < 0 {
      SameFirstOpen(cs.parts, after.parts);
    }
  }

  lemma SameFirstOpen(a: seq<Partition>, b: seq<Partition>)
    requires |a| == |b| && forall j :: 0 <= j < |a| ==> (a[j].status == Complete <==> b[j].status == Complete)
    ensures FirstOpen(a) == FirstOpen(b)
  {
    var i, k := FirstOpen(a), FirstOpen(b);
    assert i < |a| ==> b[i].status != Complete;
    assert k < |b| ==> a[k].status != Complete;
  }

  /** So the loop makes at most |partitions| * cap error-free passes. */
  lemma PassBudget(parts: seq<Partition>, cap: nat)
    requires forall i :: 0 <= i < |parts| ==> parts[i].nextPage >= 0
    ensures 0 <= Sum(parts, RemainingBy(cap)) <= cap * |parts|
  {
    SumBounds(parts, RemainingBy(cap), 0, cap);
  }

  function Passes(cs: CycleState, i: nat, reported: int, n: nat): CycleState
    requires i < |cs.parts|
    decreases n
  {
    if n == 0 then cs
    else
      var before := Passes(cs, i, reported, n - 1);
      if i < |before.parts| then Pass(before, i, reported) else before
  }

  /** The bound on the reported count is needed: a source that keeps answering a negative page count
      keeps the row open for ever, one saved page a pass. */
  lemma {:induction false} NegativeCountNeverCloses(cs: CycleState, i: nat, reported: int, n: nat)
    requires i < |cs.parts| && Consistent(cs)
    requires cs.parts[i].status != Complete && cs.parts[i].nextPage == 0
    requires reported < 0
    ensures var after := Passes(cs, i, reported, n);
            && |after.parts| == |cs.parts| && Consistent(after)
            && after.parts[i].status != Complete && after.parts[i].nextPage == n
            && (n > 0 ==> after.parts[i].expectedPages == reported)
  {
    if n > 0 {
      NegativeCountNeverCloses(cs, i, reported, n - 1);
      PassSaves(Passes(cs, i, reported, n - 1), i, reported);
    }
  }

  /** A non-negative count closes the row after that many passes, or one. */
  lemma {:induction false} CountCloses(cs: CycleState, i: nat, reported: int, n: nat)
    requires i < |cs.parts| && Consistent(cs)
    requires cs.parts[i].status != Complete && cs.parts[i].nextPage == 0
    requires 0 < reported && n <= reported
    ensures var after := Passes(cs, i, reported, n);
            && |after.parts| == |cs.parts| && Consistent(after)
            && after.parts[i].nextPage == n && (after.parts[i].status == Complete <==> n == reported)
            && (n > 0 ==> after.parts[i].expectedPages == reported)
  {
    if n > 0 {
      CountCloses(cs, i, reported, n - 1);
      PassSaves(Passes(cs, i, reported, n - 1), i, reported);
    }
  }

  /** A source that keeps answering the same count for an open row at page zero ever closes it iff the count is
      not negative. */
  lemma ClosesIff(cs: CycleState, i: nat, reported: int)
    requires i < |cs.parts| && Consistent(cs)
    requires cs.parts[i].status != Complete && cs.parts[i].nextPage == 0
    ensures (exists n: nat :: i < |Passes(cs, i, reported, n).parts| && Passes(cs, i, reported, n).parts[i].status == Complete)
            <==> reported >= 0
  {
    if reported > 0 {
      CountCloses(cs, i, reported, reported);
      assert Passes(cs, i, reported, reported).parts[i].status == Complete;
    } else if reported == 0 {
      PassCloses(cs, i);
      assert Passes(cs, i, reported, 0) == cs;
      assert Passes(cs, i, reported, 1).parts[i].status == Complete;
    } else {
      forall n: nat ensures |Passes(cs, i, reported, n).parts| == |cs.parts| && Passes(cs, i, reported, n).parts[i].status != Complete {
        NegativeCountNeverCloses(cs, i, reported, n);
      }
    }
  }
}
