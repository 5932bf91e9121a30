/** The scheduler engine: one local batch at a time, a done channel of capacity one, failure backoff. */
module Scheduler {
  import P = Sums

  /** time.Duration: signed 64-bit nanoseconds. */
  newtype Duration = x: int | -0x8000_0000_0000_0000 <= x < 0x8000_0000_0000_0000

  datatype Config = Config(interval: Duration, runOnStart: bool, initial: Duration, max: Duration, jitterPercent: real)

  /** What Config.Validate leaves through, as far as the delays are concerned. */
  predicate ValidConfig(c: Config) {
    c.interval > 0 && 0 < c.initial <= c.max && 0.0 <= c.jitterPercent <= 100.0
  }

  // ----- Backoff

  function Exponential(initial: int, max: int, failures: int): int
    requires failures >= 1
  {
    var full := initial * P.Pow2(failures - 1);
    if full < max then full else max
  }

  /** Once the doubled value has passed the cap it stays past it. */
  lemma {:induction false} PastTheCap(initial: int, max: int, i: nat, k: nat)
    requires initial > 0 && i <= k && initial * P.Pow2(i) >= max
    ensures initial * P.Pow2(k) >= max
    decreases k
  {
    if i < k {
      PastTheCap(initial, max, i, k - 1);
      assert initial * P.Pow2(k) == 2 * (initial * P.Pow2(k - 1));
      assert initial * P.Pow2(k - 1) >= 0;
    }
  }

  /** The guarded doubling loop of backoff: no intermediate value passes BackoffMax or overflows. */
  method Backoff(initial: Duration, max: Duration, failures: int) returns (delay: Duration, ghost values: seq<int>)
    requires initial > 0 && failures >= 1
    ensures delay as int == Exponential(initial as int, max as int, failures)
    ensures initial <= max ==> forall v :: v in values ==> 0 < v <= max as int
    ensures values != [] && values[0] == initial as int && values[|values| - 1] == delay as int
  {
    delay, values := initial, [initial as int];
    var i := 1;
    while i < failures && delay < max
      invariant 1 <= i <= failures && delay > 0
      invariant delay as int == initial as int * P.Pow2(i - 1)
      invariant i > 1 ==> delay <= max
      invariant initial <= max ==> forall v :: v in values ==> 0 < v <= max as int
      invariant values != [] && values[0] == initial as int && values[|values| - 1] == delay as int
    {
      assert initial as int * P.Pow2(i) == 2 * (initial as int * P.Pow2(i - 1));
      if delay > max / 2 {
        PastTheCap(initial as int, max as int, i, failures - 1);
        delay := max;
        values := values + [delay as int];
        return;
      }
      delay := delay * 2;
      values := values + [delay as int];
      i := i + 1;
    }
    if delay >= max {
      PastTheCap(initial as int, max as int, i - 1, failures - 1);
    }
    if delay > max {
      delay := max;
      values := values + [delay as int];
    }
  }

  function Spread(delay: int, percent: real): real {
    delay as real * (percent / 100.0)
  }

  function Draw(spread: real, value: real): real {
    2.0 * spread * value
  }

  /** The jittered delay, truncated to whole nanoseconds; `value` is the random draw from [0, 1). */
  function Jittered(delay: int, percent: real, value: real): int {
    var spread := Spread(delay, percent);
    var jittered := delay as real - spread + Draw(spread, value);
    if jittered < 0.0 then 0 else jittered.Floor
  }

  predicate WithinPercent(delay: int, percent: real, timer: int) {
    var spread := Spread(delay, percent);
    delay as real - spread - 1.0 < timer as real <= delay as real + spread
  }

  lemma JitterWithinPercent(delay: int, percent: real, value: real)
    requires delay >= 0 && 0.0 <= percent <= 100.0 && 0.0 <= value < 1.0
    ensures 0 <= Jittered(delay, percent, value) && WithinPercent(delay, percent, Jittered(delay, percent, value))
  {
    hide Spread, Draw;
    SpreadBounded(delay, percent);
    DrawBounded(Spread(delay, percent), value);
  }

  lemma SpreadBounded(delay: int, percent: real)
    requires delay >= 0 && 0.0 <= percent <= 100.0
    ensures 0.0 <= Spread(delay, percent) <= delay as real
  {
    var part := percent / 100.0;
    assert 0.0 <= part <= 1.0;
    Fraction(delay as real, part);
  }

  lemma DrawBounded(spread: real, value: real)
    requires spread >= 0.0 && 0.0 <= value < 1.0
    ensures 0.0 <= Draw(spread, value) <= 2.0 * spread
  {
    Fraction(2.0 * spread, value);
  }

  lemma Fraction(x: real, part: real)
    requires x >= 0.0 && 0.0 <= part <= 1.0
    ensures 0.0 <= x * part <= x
  {
    var rest := 1.0 - part;
    assert x * rest >= 0.0;
    assert x * part == x - x * rest;
  }

  // ----- The event loop

  datatype Outcome = Succeeded | LockTaken | Failed

  datatype Phase = Looping | Stopping | Returned(timedOut: bool)

  /** The engine with its goroutines: `running` batches execute, `blocked` ones wait to send their outcome. */
  datatype State = State(
    phase: Phase, active: bool, canceler: bool, canceled: bool, failures: nat, timer: int,
    running: nat, done: seq<Outcome>, blocked: seq<Outcome>, started: nat, received: seq<Outcome>)

  /** One choice of the scheduler's select, or one batch goroutine returning; events that are not ready do nothing. */
  datatype Event =
    | Tick
    | BatchReturns(outcome: Outcome)
    | TakeOutcome(value: real)
    | ContextDone
    | ShutdownOutcome
    | ShutdownTimeout

  const DONE_CAPACITY := 1

  function Start(s: State): State {
    if s.active then s
    else s.(active := true, canceler := true, running := s.running + 1, started := s.started + 1)
  }

  function Init(c: Config): State {
    var s := State(Looping, false, false, false, 0, c.interval as int, 0, [], [], 0, []);
    if c.runOnStart then Start(s) else s
  }

  function Sent(s: State, o: Outcome): State {
    if |s.done| < DONE_CAPACITY then s.(done := s.done + [o]) else s.(blocked := s.blocked + [o])
  }

  /** Receiving frees a place for the first blocked sender. */
  function Popped(s: State): State
    requires s.done != []
  {
    var rest := s.(done := s.done[1..], received := s.received + [s.done[0]], active := false);
    if s.blocked == [] then rest else Sent(rest.(blocked := s.blocked[1..]), s.blocked[0])
  }

  function Scheduled(c: Config, s: State, o: Outcome, value: real): State
    requires ValidConfig(c)
  {
    if o == Failed then
      var n := s.failures + 1;
      s.(failures := n, timer := Jittered(Exponential(c.initial as int, c.max as int, n), c.jitterPercent, value))
    else s.(failures := 0, timer := c.interval as int)
  }

  function Step(c: Config, s: State, e: Event): State
    requires ValidConfig(c)
  {
    match e
    case Tick => if s.phase.Looping? then Start(s).(timer := c.interval as int) else s
    case BatchReturns(o) => if s.running > 0 then Sent(s.(running := s.running - 1), o) else s
    case TakeOutcome(value) =>
      if s.phase.Looping? && s.done != [] then Scheduled(c, Popped(s).(canceler := false), s.done[0], value) else s
    case ContextDone =>
      if s.phase.Looping? then
        s.(canceled := s.canceler, phase := if s.active then Stopping else Returned(false))
      else s
    case ShutdownOutcome => if s.phase.Stopping? && s.done != [] then Popped(s).(phase := Returned(false)) else s
    case ShutdownTimeout => if s.phase.Stopping? then s.(phase := Returned(true)) else s
  }

  function Run(c: Config, s: State, events: seq<Event>): State
    requires ValidConfig(c)
  {
    if events == [] then s else Step(c, Run(c, s, events[..|events| - 1]), events[|events| - 1])
  }

  /** Failures received in a row, counted from the latest outcome. */
  function Streak(log: seq<Outcome>): nat {
    if log == [] || log[|log| - 1] != Failed then 0 else 1 + Streak(log[..|log| - 1])
  }

  lemma {:induction false} StreakMeaning(log: seq<Outcome>, k: nat)
    requires k <= |log|
    ensures k == Streak(log) <==>
              && (forall i :: |log| - k <= i < |log| ==> log[i] == Failed)
              && (k < |log| ==> log[|log| - k - 1] != Failed)
  {
    if log != [] && log[|log| - 1] == Failed && k > 0 {
      var front := log[..|log| - 1];
      StreakMeaning(front, k - 1);
      assert forall i :: |front| - (k - 1) <= i < |front| ==> log[i] == front[i];
    }
  }

  /** Every random draw is in [0, 1). */
  predicate ValidDraws(events: seq<Event>) {
    forall i :: 0 <= i < |events| && events[i].TakeOutcome? ==> 0.0 <= events[i].value < 1.0
  }

  ghost predicate Inv(c: Config, s: State)
    requires ValidConfig(c)
  {
    && s.blocked == []
    && s.running + |s.done| == (if s.active then 1 else 0)
    && s.started == |s.received| + (if s.active then 1 else 0)
    && (s.phase.Looping? ==> s.canceler == s.active && !s.canceled)
    && (s.phase.Stopping? ==> s.active && s.canceled)
    && (s.phase.Returned? ==> s.active == s.phase.timedOut && (s.active ==> s.canceled))
    && (!s.phase.Returned? ==> s.failures == Streak(s.received))
    && (s.timer == c.interval as int
        || (s.failures >= 1 && WithinPercent(Exponential(c.initial as int, c.max as int, s.failures), c.jitterPercent, s.timer)))
  }

  lemma StepKeeps(c: Config, s: State, e: Event)
    requires ValidConfig(c) && Inv(c, s)
    requires e.TakeOutcome? ==> 0.0 <= e.value < 1.0
    ensures Inv(c, Step(c, s, e))
  {
    hide Exponential, Jittered, WithinPercent;
    match e
    case TakeOutcome(value) =>
      if s.phase.Looping? && s.done != [] {
        var log := s.received + [s.done[0]];
        assert log[..|log| - 1] == s.received;
        if s.done[0] == Failed {
          var d := Exponential(c.initial as int, c.max as int, s.failures + 1);
          ExponentialPositive(c.initial as int, c.max as int, s.failures + 1);
          JitterWithinPercent(d, c.jitterPercent, value);
        }
      }
    case _ =>
  }

  lemma ExponentialPositive(initial: int, max: int, failures: int)
    requires 0 < initial <= max && failures >= 1
    ensures initial <= Exponential(initial, max, failures) <= max
  {
    assert initial * P.Pow2(failures - 1) >= initial;
  }

  /** In every interleaving at most one batch runs or waits in the channel, and no sender ever blocks. */
  lemma {:induction false} ReachableInv(c: Config, events: seq<Event>)
    requires ValidConfig(c) && ValidDraws(events)
    ensures Inv(c, Run(c, Init(c), events))
    decreases |events|
  {
    if events != [] {
      var before := events[..|events| - 1];
      assert forall i :: 0 <= i < |before| ==> before[i] == events[i];
      ReachableInv(c, before);
      StepKeeps(c, Run(c, Init(c), before), events[|events| - 1]);
    }
  }

  /** What a select branch does to the timer and the batch: right after a received failure the timer is the jittered
      backoff of the current streak, after any other outcome and after a tick it is the interval, and a tick starts a
      batch exactly if none is active. */
  lemma ReachableTimer(c: Config, events: seq<Event>, e: Event)
    requires ValidConfig(c) && ValidDraws(events + [e])
    ensures var s, after := Run(c, Init(c), events), Run(c, Init(c), events + [e]);
            s.phase == Looping ==>
              && (e == Tick ==>
                    && after.timer == c.interval as int && after.active
                    && after.started == s.started + (if s.active then 0 else 1)
                    && after.running == s.running + (if s.active then 0 else 1))
              && (e.TakeOutcome? && s.done != [] ==>
                    && after.received == s.received + [s.done[0]] && !after.active
                    && (s.done[0] != Failed ==> after.timer == c.interval as int && after.failures == 0)
                    && (s.done[0] == Failed ==>
                          var n := Streak(after.received);
                          && after.failures == n >= 1
                          && WithinPercent(Exponential(c.initial as int, c.max as int, n), c.jitterPercent, after.timer)))
  {
    var all := events + [e];
    assert all[..|all| - 1] == events && all[|all| - 1] == e;
    assert forall i :: 0 <= i < |events| ==> events[i] == all[i];
    var s := Run(c, Init(c), events);
    ReachableInv(c, events);
    hide Exponential, Jittered, WithinPercent, Run;
    if s.phase == Looping && e.TakeOutcome? && s.done != [] {
      var log := s.received + [s.done[0]];
      assert log[..|log| - 1] == s.received;
      var n := s.failures + 1;
      ExponentialPositive(c.initial as int, c.max as int, n);
      assert all[|events|].value == e.value;
      JitterWithinPercent(Exponential(c.initial as int, c.max as int, n), c.jitterPercent, e.value);
      assert Run(c, Init(c), all) == Step(c, s, e) by { RunLast(c, events, e); }
    } else {
      RunLast(c, events, e);
    }
  }

  lemma RunLast(c: Config, events: seq<Event>, e: Event)
    requires ValidConfig(c)
    ensures Run(c, Init(c), events + [e]) == Step(c, Run(c, Init(c), events), e)
  {
    var all := events + [e];
    assert all[..|all| - 1] == events && all[|all| - 1] == e;
  }

  /** When Run returns without a timeout, every batch ever started has reported and none is left. */
  lemma CleanShutdown(c: Config, events: seq<Event>)
    requires ValidConfig(c) && ValidDraws(events)
    ensures var s := Run(c, Init(c), events);
            s.phase == Returned(false) ==> s.running == 0 && s.done == [] && s.blocked == [] && s.started == |s.received|
  {
    ReachableInv(c, events);
  }

  // ----- The engine object

  class Engine {
    const c: Config
    var active: bool
    var canceler: bool
    var failures: nat
    var timer: int
    var phase: Phase
    var canceled: bool
    var running: nat
    var done: seq<Outcome>
    var blocked: seq<Outcome>
    ghost var started: nat
    ghost var received: seq<Outcome>

    ghost function Now(): State
      reads this
    {
      State(phase, active, canceler, canceled, failures, timer, running, done, blocked, started, received)
    }

    constructor (config: Config)
      ensures c == config && Now() == Init(config)
    {
      c := config;
      active, canceler, canceled, failures := config.runOnStart, config.runOnStart, false, 0;
      timer, phase := config.interval as int, Looping;
      running, done, blocked := if config.runOnStart then 1 else 0, [], [];
      started, received := if config.runOnStart then 1 else 0, [];
    }

    method StartBatch()
      modifies this
      ensures Now() == Start(old(Now()))
    {
      if active {
        return;
      }
      active, canceler, running, started := true, true, running + 1, started + 1;
    }

    method Send(o: Outcome)
      modifies this
      ensures Now() == Sent(old(Now()), o)
    {
      if |done| < DONE_CAPACITY {
        done := done + [o];
      } else {
        blocked := blocked + [o];
      }
    }

    method Receive() returns (o: Outcome)
      requires done != []
      modifies this
      ensures Now() == Popped(old(Now())) && o == old(done)[0]
    {
      o := done[0];
      received := received + [o];
      done := done[1..];
      active := false;
      if blocked != [] {
        var first := blocked[0];
        blocked := blocked[1..];
        Send(first);
      }
    }

    method Finish(o: Outcome, value: real)
      requires ValidConfig(c)
      modifies this
      ensures Now() == Scheduled(c, old(Now()), o, value)
    {
      if o == Failed {
        failures := failures + 1;
        var delay, _ := Backoff(c.initial, c.max, failures);
        timer := Jittered(delay as int, c.jitterPercent, value);
      } else {
        failures, timer := 0, c.interval as int;
      }
    }

    method Handle(e: Event)
      requires ValidConfig(c)
      modifies this
      ensures Now() == Step(c, old(Now()), e)
    {
      match e
      case Tick =>
        if phase.Looping? {
          StartBatch();
          timer := c.interval as int;
        }
      case BatchReturns(o) =>
        if running > 0 {
          running := running - 1;
          Send(o);
        }
      case TakeOutcome(value) =>
        if phase.Looping? && done != [] {
          var o := Receive();
          canceler := false;
          Finish(o, value);
        }
      case ContextDone =>
        if phase.Looping? {
          canceled := canceler;
          phase := if active then Stopping else Returned(false);
        }
      case ShutdownOutcome =>
        if phase.Stopping? && done != [] {
          var _ := Receive();
          phase := Returned(false);
        }
      case ShutdownTimeout =>
        if phase.Stopping? {
          phase := Returned(true);
        }
    }

    /** Engine.Run against any schedule of events. */
    method Loop(events: seq<Event>)
      requires ValidConfig(c) && ValidDraws(events) && Now() == Init(c)
      modifies this
      ensures Now() == Run(c, old(Now()), events) && Inv(c, Now())
    {
      for i := 0 to |events|
        invariant Now() == Run(c, old(Now()), events[..i])
      {
        assert events[..i + 1][..i] == events[..i];
        Handle(events[i]);
      }
      assert events[..|events|] == events;
      ReachableInv(c, events);
    }
  }
}
