/**
 The circuit breaker of the RAG API (services/rag-api/src/circuit_breaker.py): a three-state machine whose
 OPEN -> HALF_OPEN transition happens lazily, when somebody reads the state.
 */
module CircuitBreaker {

  datatype Phase = Closed | Open | HalfOpen

  /** What the wrapped function does; it may itself raise CircuitBreakerOpen. */
  datatype Outcome = Returns | RaisesOpen | Raises

  datatype Result = Value | Rejected | PassedOpen | Failed

  datatype Config = Config(threshold: int, recovery: real)

  /** The fields of the object. */
  datatype Machine = Machine(failures: nat, openedAt: real, phase: Phase)

  const FRESH := Machine(0, 0.0, Closed)

  /** The `state` property: reading it may move OPEN to HALF_OPEN. */
  function Read(cfg: Config, m: Machine, now: real): Machine {
    if m.phase == Open && now - m.openedAt >= cfg.recovery then m.(phase := HalfOpen) else m
  }

  function OnFailure(cfg: Config, m: Machine, now: real): Machine {
    Machine(m.failures + 1, now, if m.failures + 1 >= cfg.threshold then Open else m.phase)
  }

  /** One call, from its state read at `start` to the end of the wrapped function at `end`. */
  function Call(cfg: Config, m: Machine, start: real, end: real, o: Outcome): (Machine, Result) {
    var r := Read(cfg, m, start);
    if r.phase == Open then (r, Rejected)
    else
      match o
      case Returns => (if r.phase == HalfOpen then FRESH else r, Value)
      case RaisesOpen => (r, PassedOpen)
      case Raises => (OnFailure(cfg, r, end), Failed)
  }

  class CircuitBreaker {
    const cfg: Config
    var failureCount: nat
    var openedAt: real
    var phase: Phase

    ghost function View(): Machine
      reads this
    {
      Machine(failureCount, openedAt, phase)
    }

    constructor (threshold: int, recovery: real)
      ensures View() == FRESH && cfg == Config(threshold, recovery)
    {
      cfg := Config(threshold, recovery);
      failureCount, openedAt, phase := 0, 0.0, Closed;
    }

    method State(now: real) returns (p: Phase)
      modifies this
      ensures View() == Read(cfg, old(View()), now) && p == View().phase
    {
      if phase == Open {
        if now - openedAt >= cfg.recovery {
          phase := HalfOpen;
        }
      }
      p := phase;
    }

    method Invoke(start: real, end: real, o: Outcome) returns (r: Result)
      modifies this
      ensures (View(), r) == Call(cfg, old(View()), start, end, o)
    {
      var state := State(start);
      if state == Open {
        return Rejected;
      }
      match o {
        case Returns =>
          if state == HalfOpen {
            Reset();
          }
          r := Value;
        case RaisesOpen =>
          r := PassedOpen;
        case Raises =>
          RecordFailure(end);
          r := Failed;
      }
    }

    method RecordFailure(now: real)
      modifies this
      ensures View() == OnFailure(cfg, old(View()), now)
    {
      failureCount := failureCount + 1;
      openedAt := now;
      if failureCount >= cfg.threshold {
        phase := Open;
      }
    }

    method Reset()
      modifies this
      ensures View() == FRESH
    {
      failureCount, openedAt, phase := 0, 0.0, Closed;
    }
  }

  // ---- The specification: failures since the last reset, and the time of the last one ----

  datatype Spec = Spec(count: nat, last: real)

  function SpecPhase(cfg: Config, s: Spec, now: real): Phase {
    if s.count < cfg.threshold then Closed else if now - s.last >= cfg.recovery then HalfOpen else Open
  }

  function SpecCall(cfg: Config, s: Spec, start: real, end: real, o: Outcome): (Spec, Result) {
    match SpecPhase(cfg, s, start)
    case Open => (s, Rejected)
    case p =>
      match o
      case Returns => (if p == HalfOpen then Spec(0, 0.0) else s, Value)
      case RaisesOpen => (s, PassedOpen)
      case Raises => (Spec(s.count + 1, end), Failed)
  }

  datatype Event = ReadState(now: real) | MakeCall(start: real, end: real, outcome: Outcome)

  function StartOf(e: Event): real {
    match e
    case ReadState(now) => now
    case MakeCall(start, _, _) => start
  }

  function EndOf(e: Event): real {
    match e
    case ReadState(now) => now
    case MakeCall(_, end, _) => end
  }

  /** The events follow each other on a clock that does not run backwards. */
  ghost predicate Ordered(events: seq<Event>, clock: real)
    decreases |events|
  {
    |events| > 0 ==> clock <= StartOf(events[0]) <= EndOf(events[0]) && Ordered(events[1..], EndOf(events[0]))
  }

  /** The answers the machine gives to the calls among the events. */
  function Answers(cfg: Config, m: Machine, events: seq<Event>): seq<Result>
    decreases |events|
  {
    if |events| == 0 then []
    else
      match events[0]
      case ReadState(now) => Answers(cfg, Read(cfg, m, now), events[1..])
      case MakeCall(start, end, o) =>
        var (next, r) := Call(cfg, m, start, end, o);
        [r] + Answers(cfg, next, events[1..])
  }

  /** The answers of the specification, which does not see reads at all. */
  function SpecAnswers(cfg: Config, s: Spec, events: seq<Event>): seq<Result>
    decreases |events|
  {
    if |events| == 0 then []
    else
      match events[0]
      case ReadState(_) => SpecAnswers(cfg, s, events[1..])
      case MakeCall(start, end, o) =>
        var (next, r) := SpecCall(cfg, s, start, end, o);
        [r] + SpecAnswers(cfg, next, events[1..])
  }

  ghost predicate Coupled(cfg: Config, m: Machine, s: Spec, clock: real) {
    && s == Spec(m.failures, m.openedAt) && clock >= 0.0
    && match m.phase
       case Closed => m.failures < cfg.threshold || (cfg.recovery <= 0.0 && m.failures == 0 && m.openedAt == 0.0)
       case Open => m.failures >= cfg.threshold && m.openedAt <= clock
       case HalfOpen => m.failures >= cfg.threshold && clock - m.openedAt >= cfg.recovery
  }

  lemma CallRefines(cfg: Config, m: Machine, s: Spec, clock: real, start: real, end: real, o: Outcome)
    requires Coupled(cfg, m, s, clock) && clock <= start <= end
    requires cfg.threshold >= 1 || cfg.recovery <= 0.0
    ensures var (m', r) := Call(cfg, m, start, end, o);
            var (s', q) := SpecCall(cfg, s, start, end, o);
            r == q && Coupled(cfg, m', s', end)
  {}

  lemma {:induction false} AnswersRefine(cfg: Config, m: Machine, s: Spec, clock: real, events: seq<Event>)
    requires Coupled(cfg, m, s, clock) && Ordered(events, clock)
    requires cfg.threshold >= 1 || cfg.recovery <= 0.0
    ensures Answers(cfg, m, events) == SpecAnswers(cfg, s, events)
    decreases |events|
  {
    if |events| == 0 {
    } else {
      match events[0] {
        case ReadState(now) =>
          AnswersRefine(cfg, Read(cfg, m, now), s, now, events[1..]);
        case MakeCall(start, end, o) =>
          CallRefines(cfg, m, s, clock, start, end, o);
          AnswersRefine(cfg, Call(cfg, m, start, end, o).0, SpecCall(cfg, s, start, end, o).0, end, events[1..]);
      }
    }
  }

  /**
   Refinement. On every run from a fresh breaker, with state reads anywhere between the calls, the lazily updated
   machine answers every call as the two-field specification does, which never sees a read; this holds for exactly the
   configurations with a threshold of at least 1 or without a recovery time.
   */
  lemma RefinesSpecIff(cfg: Config)
    ensures (forall events :: Ordered(events, 0.0) ==>
        Answers(cfg, FRESH, events) == SpecAnswers(cfg, Spec(0, 0.0), events))
        <==> cfg.threshold >= 1 || cfg.recovery <= 0.0
  {
    if cfg.threshold >= 1 || cfg.recovery <= 0.0 {
      forall events | Ordered(events, 0.0)
        ensures Answers(cfg, FRESH, events) == SpecAnswers(cfg, Spec(0, 0.0), events)
      {
        AnswersRefine(cfg, FRESH, Spec(0, 0.0), 0.0, events);
      }
    } else {
      var events := [MakeCall(0.0, 0.0, Returns)];
      assert events[1..] == [];
      assert Ordered(events, 0.0);
      assert Answers(cfg, FRESH, events) == [Value];
      assert SpecAnswers(cfg, Spec(0, 0.0), events) == [Rejected];
    }
  }

  function CallsOnly(events: seq<Event>): seq<Event> {
    if |events| == 0 then []
    else (if events[0].MakeCall? then [events[0]] else []) + CallsOnly(events[1..])
  }

  lemma {:induction false} SpecIgnoresReads(cfg: Config, s: Spec, events: seq<Event>)
    ensures SpecAnswers(cfg, s, events) == SpecAnswers(cfg, s, CallsOnly(events))
    decreases |events|
  {
    if |events| == 0 {
    } else {
      match events[0] {
        case ReadState(_) =>
          assert CallsOnly(events) == CallsOnly(events[1..]);
          SpecIgnoresReads(cfg, s, events[1..]);
        case MakeCall(start, end, o) =>
          SpecIgnoresReads(cfg, SpecCall(cfg, s, start, end, o).0, events[1..]);
          assert CallsOnly(events)[0] == events[0] && CallsOnly(events)[1..] == CallsOnly(events[1..]);
      }
    }
  }

  lemma {:induction false} CallsOnlyOrdered(events: seq<Event>, clock: real, earlier: real)
    requires Ordered(events, clock) && earlier <= clock
    ensures Ordered(CallsOnly(events), earlier)
    decreases |events|
  {
    if |events| == 0 {
    } else {
      CallsOnlyOrdered(events[1..], EndOf(events[0]), if events[0].MakeCall? then EndOf(events[0]) else earlier);
      if events[0].MakeCall? {
        assert CallsOnly(events)[1..] == CallsOnly(events[1..]);
      } else {
        assert CallsOnly(events) == CallsOnly(events[1..]);
      }
    }
  }

  /** Reading the state, as the health endpoint does, never changes what any call answers. */
  lemma ReadsChangeNothing(cfg: Config, events: seq<Event>)
    requires cfg.threshold >= 1 && Ordered(events, 0.0)
    ensures Answers(cfg, FRESH, events) == Answers(cfg, FRESH, CallsOnly(events))
  {
    CallsOnlyOrdered(events, 0.0, 0.0);
    AnswersRefine(cfg, FRESH, Spec(0, 0.0), 0.0, events);
    AnswersRefine(cfg, FRESH, Spec(0, 0.0), 0.0, CallsOnly(events));
    SpecIgnoresReads(cfg, Spec(0, 0.0), events);
  }

  // ---- Failures need not be consecutive ----

  function SpecAfter(cfg: Config, s: Spec, calls: seq<Event>): Spec
    requires forall c :: c in calls ==> c.MakeCall?
    decreases |calls|
  {
    if |calls| == 0 then s
    else
      assert calls[0] in calls;
      SpecAfter(cfg, SpecCall(cfg, s, calls[0].start, calls[0].end, calls[0].outcome).0, calls[1..])
  }

  function FailureTotal(calls: seq<Event>): nat {
    if |calls| == 0 then 0
    else (if calls[0].MakeCall? && calls[0].outcome == Raises then 1 else 0) + FailureTotal(calls[1..])
  }

  /**
   Successes while closed do not clear the count: after any calls with f failures among them, f at most the
   threshold, the count stands at f, however many successes lie between them.
   */
  lemma {:induction false} SuccessesDoNotClear(cfg: Config, s: Spec, calls: seq<Event>)
    requires forall c :: c in calls ==> c.MakeCall?
    requires s.count + FailureTotal(calls) <= cfg.threshold
    requires |calls| > 0 && s.count + FailureTotal(calls) == cfg.threshold ==>
               s.count < cfg.threshold && calls[|calls| - 1].outcome == Raises
    ensures SpecAfter(cfg, s, calls).count == s.count + FailureTotal(calls)
    decreases |calls|
  {
    if |calls| == 0 {
    } else {
      var c := calls[0];
      assert c in calls;
      assert s.count < cfg.threshold;
      var next := SpecCall(cfg, s, c.start, c.end, c.outcome).0;
      if |calls| > 1 {
        LastFailureCounts(calls[1..]);
        assert calls[1..][|calls[1..]| - 1] == calls[|calls| - 1];
      }
      SuccessesDoNotClear(cfg, next, calls[1..]);
    }
  }

  lemma {:induction false} LastFailureCounts(calls: seq<Event>)
    requires |calls| > 0
    ensures calls[|calls| - 1].MakeCall? && calls[|calls| - 1].outcome == Raises ==> FailureTotal(calls) >= 1
  {
    if |calls| > 1 {
      LastFailureCounts(calls[1..]);
      assert calls[1..][|calls[1..]| - 1] == calls[|calls| - 1];
    }
  }

  // ---- How often a dead backend is called ----

  /** The start times of the calls that reach the backend, when every one of them fails. */
  function Reached(cfg: Config, s: Spec, calls: seq<(real, real)>): seq<real>
    decreases |calls|
  {
    if |calls| == 0 then []
    else
      var (start, end) := calls[0];
      var (next, r) := SpecCall(cfg, s, start, end, Raises);
      (if r == Rejected then [] else [start]) + Reached(cfg, next, calls[1..])
  }

  ghost predicate InOrder(calls: seq<(real, real)>, clock: real)
    decreases |calls|
  {
    |calls| > 0 ==> clock <= calls[0].0 <= calls[0].1 && InOrder(calls[1..], calls[0].1)
  }

  /** Calls that may still reach the backend without any wait. */
  function Free(cfg: Config, s: Spec): int {
    if cfg.threshold - s.count > 1 then cfg.threshold - s.count else 1
  }

  ghost predicate Spaced(cfg: Config, s: Spec, ts: seq<real>, clock: real) {
    |ts| > 0 ==>
      && clock <= ts[0]
      && (s.count >= cfg.threshold ==> s.last + cfg.recovery <= ts[0])
      && (|ts| - Free(cfg, s)) as real * cfg.recovery <= ts[|ts| - 1] - ts[0]
  }

  lemma {:induction false} ReachedAreSpaced(cfg: Config, s: Spec, calls: seq<(real, real)>, clock: real)
    requires cfg.recovery >= 0.0 && InOrder(calls, clock)
    ensures Spaced(cfg, s, Reached(cfg, s, calls), clock)
    decreases |calls|
  {
    if |calls| == 0 {
    } else {
      var (start, end) := calls[0];
      var (next, r) := SpecCall(cfg, s, start, end, Raises);
      ReachedAreSpaced(cfg, next, calls[1..], end);
      var rest := Reached(cfg, next, calls[1..]);
      if r != Rejected {
        assert Reached(cfg, s, calls) == [start] + rest;
        assert next == Spec(s.count + 1, end);
        OneMoreReached(cfg, s, start, end, rest, clock);
      } else {
        assert Reached(cfg, s, calls) == rest;
      }
    }
  }

  lemma OneMoreReached(cfg: Config, s: Spec, start: real, end: real, rest: seq<real>, clock: real)
    requires cfg.recovery >= 0.0 && clock <= start <= end
    requires SpecPhase(cfg, s, start) != Open
    requires Spaced(cfg, Spec(s.count + 1, end), rest, end)
    ensures Spaced(cfg, s, [start] + rest, clock)
  {
    var next := Spec(s.count + 1, end);
    if |rest| == 0 {
      NoPositiveGap(1 - Free(cfg, s), cfg.recovery);
    } else if Free(cfg, s) > 1 {
      SameGap(|rest| - Free(cfg, next), |rest| + 1 - Free(cfg, s), cfg.recovery);
    } else {
      WiderGap(|rest| - 1, cfg.recovery);
    }
  }

  lemma NoPositiveGap(n: int, r: real)
    requires n <= 0 && r >= 0.0
    ensures n as real * r <= 0.0
  {}

  lemma SameGap(n: int, m: int, r: real)
    requires n == m
    ensures n as real * r == m as real * r
  {}

  lemma WiderGap(n: int, r: real)
    ensures (n + 1) as real * r == n as real * r + r
  {
    assert (n + 1) as real == n as real + 1.0;
  }

  /**
   The rate bound. If every backend call fails, then from any state with a positive recovery time the number of calls
   that reach the backend within a time T is at most threshold + T / recovery.
   */
  lemma DeadBackendRate(cfg: Config, s: Spec, calls: seq<(real, real)>, clock: real, window: real)
    requires cfg.threshold >= 1 && cfg.recovery > 0.0 && InOrder(calls, clock)
    requires var ts := Reached(cfg, s, calls); |ts| > 0 ==> ts[|ts| - 1] - ts[0] <= window
    requires window >= 0.0
    ensures |Reached(cfg, s, calls)| as real <= cfg.threshold as real + window / cfg.recovery
  {
    ReachedAreSpaced(cfg, s, calls, clock);
    var n := |Reached(cfg, s, calls)|;
    if n > 0 {
      DivideOut((n - Free(cfg, s)) as real, cfg.recovery, window);
      assert Free(cfg, s) <= cfg.threshold;
    }
  }

  lemma DivideOut(a: real, r: real, w: real)
    requires r > 0.0 && a * r <= w
    ensures a <= w / r
  {
    assert a * r / r == a;
  }
}
