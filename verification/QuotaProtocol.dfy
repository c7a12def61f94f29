/**
 `check_quota` under interleaving: any number of concurrent increment-on-allow calls on one key, each a
 sequence of atomic Redis steps, together with `record_usage` increments, Redis errors before
 or after the server acted, and expiry of the key.
 */
module QuotaProtocol {
  import opened Options

  datatype Verdict = Allowed | Denied | FailOpen

  /**
   Idle: nothing sent yet. Counted: INCRBY+EXPIRE done in the given epoch, with the counter it
   returned. Settled: answered; `held` says whether the amount is still in that epoch's counter.
   */
  datatype Phase = Idle | Counted(epoch: nat, current: int) | Settled(verdict: Verdict, epoch: nat, held: bool)

  datatype Call = Call(amount: nat, limit: int, phase: Phase)

  datatype Outcome = Ok | RaisedBefore | RaisedAfter

  datatype State = State(
    counter: int,            // the Redis key; a missing key is 0
    calls: seq<Call>,
    recorded: nat,           // record_usage amounts in this epoch
    epoch: nat,              // number of expiries so far
    drift: nat,              // rollbacks of earlier epochs' increments applied in this epoch
    skipped: nat)            // the fail-open counter

  datatype Label =
    | Arrive(amount: nat, limit: int)
    | Incr(i: nat, o: Outcome)
    | Allow(i: nat)
    | Rollback(i: nat, o: Outcome)
    | Record(amount: nat)
    | Expire

  const INIT := State(0, [], 0, 0, 0, 0)

  ghost predicate Enabled(s: State, l: Label) {
    match l
    case Arrive(_, _) => true
    case Incr(i, _) => i < |s.calls| && s.calls[i].phase.Idle?
    case Allow(i) => i < |s.calls| && s.calls[i].phase.Counted? && s.calls[i].phase.current <= s.calls[i].limit
    case Rollback(i, _) => i < |s.calls| && s.calls[i].phase.Counted? && s.calls[i].phase.current > s.calls[i].limit
    case Record(_) => true
    case Expire => true
  }

  function Move(s: State, i: nat, phase: Phase): State
    requires i < |s.calls|
  {
    s.(calls := s.calls[i := s.calls[i].(phase := phase)])
  }

  function Next(s: State, l: Label): State
    requires Enabled(s, l)
  {
    match l
    case Arrive(amount, limit) => s.(calls := s.calls + [Call(amount, limit, Idle)])
    case Incr(i, o) =>
      var a := s.calls[i].amount;
      (match o
       case Ok => Move(s, i, Counted(s.epoch, s.counter + a)).(counter := s.counter + a)
       case RaisedBefore => Move(s, i, Settled(FailOpen, s.epoch, false)).(skipped := s.skipped + 1)
       case RaisedAfter =>
         Move(s, i, Settled(FailOpen, s.epoch, true)).(counter := s.counter + a, skipped := s.skipped + 1))
    case Allow(i) => Move(s, i, Settled(Allowed, s.calls[i].phase.epoch, true))
    case Rollback(i, o) =>
      var a, e := s.calls[i].amount, s.calls[i].phase.epoch;
      var drift := if e == s.epoch then s.drift else s.drift + a;
      (match o
       case Ok => Move(s, i, Settled(Denied, e, false)).(counter := s.counter - a, drift := drift)
       case RaisedBefore => Move(s, i, Settled(FailOpen, e, true)).(skipped := s.skipped + 1)
       case RaisedAfter =>
         Move(s, i, Settled(FailOpen, e, false)).(counter := s.counter - a, drift := drift, skipped := s.skipped + 1))
    case Record(a) => s.(counter := s.counter + a, recorded := s.recorded + a)
    case Expire => s.(counter := 0, recorded := 0, drift := 0, epoch := s.epoch + 1)
  }

  // ---- Sums over the calls ----

  function Sum(calls: seq<Call>, f: Call -> nat): nat {
    if |calls| == 0 then 0 else Sum(calls[..|calls| - 1], f) + f(calls[|calls| - 1])
  }

  lemma {:induction false} SumUpdate(calls: seq<Call>, i: nat, c: Call, f: Call -> nat)
    requires i < |calls|
    ensures Sum(calls[i := c], f) == Sum(calls, f) - f(calls[i]) + f(c)
  {
    var n := |calls| - 1;
    if i < n {
      SumUpdate(calls[..n], i, c, f);
      assert calls[i := c][..n] == calls[..n][i := c];
    } else {
      assert calls[i := c][..n] == calls[..n];
    }
  }

  lemma {:induction false} SumZero(calls: seq<Call>, f: Call -> nat)
    requires forall c :: c in calls ==> f(c) == 0
    ensures Sum(calls, f) == 0
  {
    if |calls| == 0 {
    } else {
      SumZero(calls[..|calls| - 1], f);
    }
  }

  lemma {:induction false} SumAtMost(calls: seq<Call>, f: Call -> nat, g: Call -> nat)
    requires forall c :: f(c) <= g(c)
    ensures Sum(calls, f) <= Sum(calls, g)
  {
    if |calls| == 0 {
    } else {
      SumAtMost(calls[..|calls| - 1], f, g);
    }
  }

  // What one call contributes.

  /** Its amount is in the counter of epoch e. */
  function Held(e: nat): Call -> nat {
    (c: Call) =>
      match c.phase
      case Idle => 0
      case Counted(e', _) => if e' == e then c.amount else 0
      case Settled(_, e', held) => if e' == e && held then c.amount else 0
  }

  /** It is normally ALLOWED in epoch e, or its increment has already won. */
  function Won(e: nat): Call -> nat {
    (c: Call) =>
      match c.phase
      case Idle => 0
      case Counted(e', current) => if e' == e && current <= c.limit then c.amount else 0
      case Settled(v, e', _) => if e' == e && v == Allowed then c.amount else 0
  }

  /** Its rollback is still to come. */
  function Pending(e: nat): Call -> nat {
    (c: Call) => if c.phase.Counted? && c.phase.epoch == e && c.phase.current > c.limit then c.amount else 0
  }

  /** A Redis error left its amount behind. */
  function Stranded(e: nat): Call -> nat {
    (c: Call) =>
      if c.phase.Settled? && c.phase.verdict == FailOpen && c.phase.epoch == e && c.phase.held then c.amount else 0
  }

  /** It has been answered ALLOWED by the limit check in epoch e. */
  function Admitted(e: nat): Call -> nat {
    (c: Call) => if c.phase.Settled? && c.phase.verdict == Allowed && c.phase.epoch == e then c.amount else 0
  }

  function FailedOpen(c: Call): nat {
    if c.phase.Settled? && c.phase.verdict == FailOpen then 1 else 0
  }

  // ---- The invariant ----

  ghost predicate LimitsAtMost(s: State, L: nat) {
    forall c :: c in s.calls ==> c.limit <= L
  }

  ghost predicate PhasesSane(s: State) {
    forall c :: c in s.calls ==>
      match c.phase
      case Idle => true
      case Counted(e, _) => e <= s.epoch
      case Settled(v, e, held) => e <= s.epoch && (v == Allowed ==> held) && (v == Denied ==> !held)
  }

  /** Conservation: where every unit in the counter comes from. */
  ghost predicate Conserved(s: State) {
    s.counter == Sum(s.calls, Held(s.epoch)) + s.recorded - s.drift
  }

  ghost predicate Inv(s: State, L: nat) {
    && PhasesSane(s) && Conserved(s)
    && s.skipped == Sum(s.calls, FailedOpen)
    && Sum(s.calls, Won(s.epoch)) <= L + s.drift
  }

  lemma WonIsHeld(s: State)
    requires PhasesSane(s)
    ensures Sum(s.calls, Won(s.epoch)) <= Sum(s.calls, Held(s.epoch))
  {
    WonIsHeldIn(s.calls, s.epoch);
  }

  lemma {:induction false} WonIsHeldIn(calls: seq<Call>, e: nat)
    requires forall c :: c in calls ==> (c.phase.Settled? && c.phase.verdict == Allowed ==> c.phase.held)
    ensures Sum(calls, Won(e)) <= Sum(calls, Held(e))
  {
    if |calls| == 0 {
    } else {
      WonIsHeldIn(calls[..|calls| - 1], e);
      assert calls[|calls| - 1] in calls;
    }
  }

  lemma MoveSane(s: State, i: nat, phase: Phase)
    requires i < |s.calls| && PhasesSane(s)
    requires match phase
             case Idle => true
             case Counted(e, _) => e <= s.epoch
             case Settled(v, e, held) => e <= s.epoch && (v == Allowed ==> held) && (v == Denied ==> !held)
    ensures PhasesSane(Move(s, i, phase))
  {
    var t := Move(s, i, phase);
    forall c | c in t.calls
      ensures c in s.calls || c == t.calls[i]
    {
      var j :| 0 <= j < |t.calls| && t.calls[j] == c;
      if j != i {
        assert s.calls[j] == c;
      }
    }
  }

  lemma MoveSums(s: State, i: nat, phase: Phase)
    requires i < |s.calls|
    ensures var c, d := s.calls[i], s.calls[i].(phase := phase);
            var t := Move(s, i, phase);
            && Sum(t.calls, Held(s.epoch)) == Sum(s.calls, Held(s.epoch)) - Held(s.epoch)(c) + Held(s.epoch)(d)
            && Sum(t.calls, Won(s.epoch)) == Sum(s.calls, Won(s.epoch)) - Won(s.epoch)(c) + Won(s.epoch)(d)
            && Sum(t.calls, FailedOpen) == Sum(s.calls, FailedOpen) - FailedOpen(c) + FailedOpen(d)
  {
    var d := s.calls[i].(phase := phase);
    SumUpdate(s.calls, i, d, Held(s.epoch));
    SumUpdate(s.calls, i, d, Won(s.epoch));
    SumUpdate(s.calls, i, d, FailedOpen);
  }

  lemma IncrKeepsInv(s: State, l: Label, L: nat)
    requires Inv(s, L) && LimitsAtMost(s, L) && l.Incr? && Enabled(s, l)
    ensures Inv(Next(s, l), L)
  {
    var t := Next(s, l);
    var phase := t.calls[l.i].phase;
    assert s.calls[l.i] in s.calls;
    MoveSane(s, l.i, phase);
    MoveSums(s, l.i, phase);
    assert t.calls == Move(s, l.i, phase).calls;
    WonIsHeld(t);
  }

  lemma AllowKeepsInv(s: State, l: Label, L: nat)
    requires Inv(s, L) && l.Allow? && Enabled(s, l)
    ensures Inv(Next(s, l), L)
  {
    var t := Next(s, l);
    var phase := t.calls[l.i].phase;
    assert s.calls[l.i] in s.calls;
    MoveSane(s, l.i, phase);
    MoveSums(s, l.i, phase);
    assert t.calls == Move(s, l.i, phase).calls;
  }

  /** A rollback moves its call to Settled; what else it changes depends on the outcome. */
  lemma RollbackMoves(s: State, l: Label, L: nat) returns (phase: Phase)
    requires Inv(s, L) && l.Rollback? && Enabled(s, l)
    ensures phase == Next(s, l).calls[l.i].phase && Next(s, l).calls == Move(s, l.i, phase).calls
    ensures PhasesSane(Move(s, l.i, phase))
    ensures s.calls[l.i].phase.epoch <= s.epoch
  {
    phase := Next(s, l).calls[l.i].phase;
    assert s.calls[l.i] in s.calls;
    MoveSane(s, l.i, phase);
  }

  lemma RollbackAppliedKeepsInv(s: State, l: Label, L: nat)
    requires Inv(s, L) && l.Rollback? && Enabled(s, l) && l.o == Ok
    ensures Inv(Next(s, l), L)
  {
    var phase := RollbackMoves(s, l, L);
    MoveSums(s, l.i, phase);
  }

  lemma RollbackLostKeepsInv(s: State, l: Label, L: nat)
    requires Inv(s, L) && l.Rollback? && Enabled(s, l) && l.o == RaisedBefore
    ensures Inv(Next(s, l), L)
  {
    var phase := RollbackMoves(s, l, L);
    MoveSums(s, l.i, phase);
  }

  lemma RollbackUnansweredKeepsInv(s: State, l: Label, L: nat)
    requires Inv(s, L) && l.Rollback? && Enabled(s, l) && l.o == RaisedAfter
    ensures Inv(Next(s, l), L)
  {
    var phase := RollbackMoves(s, l, L);
    MoveSums(s, l.i, phase);
  }

  lemma RollbackKeepsInv(s: State, l: Label, L: nat)
    requires Inv(s, L) && l.Rollback? && Enabled(s, l)
    ensures Inv(Next(s, l), L)
  {
    match l.o {
      case Ok => RollbackAppliedKeepsInv(s, l, L);
      case RaisedBefore => RollbackLostKeepsInv(s, l, L);
      case RaisedAfter => RollbackUnansweredKeepsInv(s, l, L);
    }
  }

  lemma ExpireKeepsInv(s: State, L: nat)
    requires Inv(s, L)
    ensures Inv(Next(s, Expire), L)
  {
    SumZero(s.calls, Held(s.epoch + 1));
    SumZero(s.calls, Won(s.epoch + 1));
  }

  lemma ArriveKeepsInv(s: State, l: Label, L: nat)
    requires Inv(s, L) && l.Arrive?
    ensures Inv(Next(s, l), L)
  {
    var t := Next(s, l);
    assert t.calls[..|t.calls| - 1] == s.calls;
  }

  lemma NextKeepsInv(s: State, l: Label, L: nat)
    requires Inv(s, L) && LimitsAtMost(s, L) && Enabled(s, l)
    ensures Inv(Next(s, l), L)
  {
    match l {
      case Arrive(_, _) => ArriveKeepsInv(s, l, L);
      case Incr(_, _) => IncrKeepsInv(s, l, L);
      case Allow(_) => AllowKeepsInv(s, l, L);
      case Rollback(_, _) => RollbackKeepsInv(s, l, L);
      case Record(_) =>
      case Expire => ExpireKeepsInv(s, L);
    }
  }

  // ---- Runs ----

  ghost predicate IsRun(states: seq<State>, labels: seq<Label>) {
    && |states| == |labels| + 1 && states[0] == INIT
    && forall i :: 0 <= i < |labels| ==> Enabled(states[i], labels[i]) && states[i + 1] == Next(states[i], labels[i])
  }

  /** Every limit any call of the run reads is at most L. */
  ghost predicate ReadLimits(labels: seq<Label>, L: nat) {
    forall l :: l in labels && l.Arrive? ==> l.limit <= L
  }

  lemma {:induction false} RunInv(states: seq<State>, labels: seq<Label>, i: nat, L: nat)
    requires IsRun(states, labels) && ReadLimits(labels, L) && i < |states|
    ensures Inv(states[i], L) && LimitsAtMost(states[i], L)
  {
    if i == 0 {
    } else {
      RunInv(states, labels, i - 1, L);
      NextKeepsInv(states[i - 1], labels[i - 1], L);
      assert labels[i - 1] in labels;
      LimitsKept(states[i - 1], labels[i - 1], L);
    }
  }

  lemma LimitsKept(s: State, l: Label, L: nat)
    requires LimitsAtMost(s, L) && Enabled(s, l) && (l.Arrive? ==> l.limit <= L)
    ensures LimitsAtMost(Next(s, l), L)
  {
    var t := Next(s, l);
    forall c | c in t.calls
      ensures c.limit <= L
    {
      var j :| 0 <= j < |t.calls| && t.calls[j] == c;
      if j < |s.calls| {
        assert s.calls[j] in s.calls && s.calls[j].limit == c.limit;
      }
    }
  }

  lemma {:induction false} NoExpiryNoDrift(states: seq<State>, labels: seq<Label>, i: nat)
    requires IsRun(states, labels) && Expire !in labels && i < |states|
    ensures states[i].epoch == 0 && states[i].drift == 0
    ensures PhasesSane(states[i])
  {
    if i == 0 {
    } else {
      NoExpiryNoDrift(states, labels, i - 1);
      var s, l := states[i - 1], labels[i - 1];
      assert l in labels;
      if l.Incr? || l.Allow? || l.Rollback? {
        assert s.calls[l.i] in s.calls;
        MoveSane(s, l.i, states[i].calls[l.i].phase);
        assert states[i].calls == Move(s, l.i, states[i].calls[l.i].phase).calls;
      }
    }
  }

  lemma {:induction false} HeldSplits(calls: seq<Call>, e: nat)
    requires forall c :: c in calls && c.phase.Settled? ==>
               (c.phase.verdict == Allowed ==> c.phase.held) && (c.phase.verdict == Denied ==> !c.phase.held)
    ensures Sum(calls, Held(e)) == Sum(calls, Won(e)) + Sum(calls, Pending(e)) + Sum(calls, Stranded(e))
    ensures Sum(calls, Admitted(e)) <= Sum(calls, Won(e))
  {
    if |calls| == 0 {
    } else {
      HeldSplits(calls[..|calls| - 1], e);
      assert calls[|calls| - 1] in calls;
    }
  }

  /**
   Admission safety under interleaving. Without expiry, whatever the number and the interleaving of the calls, the
   amounts normally answered ALLOWED never add up to more than L; the counter is what has been won and recorded, plus
   the rollbacks still to come, plus what Redis errors stranded; and the skip counter counts the fail-open answers.
   */
  lemma AdmissionSafety(states: seq<State>, labels: seq<Label>, i: nat, L: nat)
    requires IsRun(states, labels) && ReadLimits(labels, L) && Expire !in labels && i < |states|
    ensures var s := states[i];
            && Sum(s.calls, Admitted(0)) <= Sum(s.calls, Won(0)) <= L
            && s.counter == Sum(s.calls, Won(0)) + s.recorded + Sum(s.calls, Pending(0)) + Sum(s.calls, Stranded(0))
            && s.skipped == Sum(s.calls, FailedOpen)
  {
    RunInv(states, labels, i, L);
    NoExpiryNoDrift(states, labels, i);
    HeldSplits(states[i].calls, 0);
  }

  /**
   Window drift. With expiry, the amounts normally admitted since the last expiry are at most the limit plus the
   rollbacks that were issued for increments made before an expiry and applied since.
   */
  lemma WindowDrift(states: seq<State>, labels: seq<Label>, i: nat, L: nat)
    requires IsRun(states, labels) && ReadLimits(labels, L) && i < |states|
    ensures Sum(states[i].calls, Admitted(states[i].epoch)) <= L + states[i].drift
  {
    RunInv(states, labels, i, L);
    HeldSplits(states[i].calls, states[i].epoch);
  }

  ghost predicate StepAt(states: seq<State>, labels: seq<Label>, i: nat)
    requires i < |labels| && i + 1 < |states|
  {
    Enabled(states[i], labels[i]) && states[i + 1] == Next(states[i], labels[i])
  }

  function DriftLabels(L: nat): seq<Label> {
    [Arrive(L + 1, L), Incr(0, Ok), Expire, Rollback(0, Ok), Arrive(2 * L + 1, L), Incr(1, Ok), Allow(1)]
  }

  function DriftStates(L: nat): seq<State> {
    var denied := Call(L + 1, L, Settled(Denied, 0, false));
    [ INIT,
      State(0, [Call(L + 1, L, Idle)], 0, 0, 0, 0),
      State(L + 1, [Call(L + 1, L, Counted(0, L + 1))], 0, 0, 0, 0),
      State(0, [Call(L + 1, L, Counted(0, L + 1))], 0, 1, 0, 0),
      State(-(L + 1), [denied], 0, 1, L + 1, 0),
      State(-(L + 1), [denied, Call(2 * L + 1, L, Idle)], 0, 1, L + 1, 0),
      State(L, [denied, Call(2 * L + 1, L, Counted(1, L))], 0, 1, L + 1, 0),
      State(L, [denied, Call(2 * L + 1, L, Settled(Allowed, 1, true))], 0, 1, L + 1, 0)]
  }

  lemma DriftBefore(L: nat)
    ensures var states, labels := DriftStates(L), DriftLabels(L);
            StepAt(states, labels, 0) && StepAt(states, labels, 1) && StepAt(states, labels, 2)
                && StepAt(states, labels, 3)
  {}

  lemma DriftAfter(L: nat)
    ensures var states, labels := DriftStates(L), DriftLabels(L);
            StepAt(states, labels, 4) && StepAt(states, labels, 5) && StepAt(states, labels, 6)
  {}

  /**
   The drift term is needed: for every limit there is a run that admits the limit plus the late rollback in one
   window. A call asks for one more than the limit, the key expires, its rollback lands in the new
   window, and the next call finds room below zero.
   */
  lemma DriftIsReached(L: nat) returns (states: seq<State>, labels: seq<Label>)
    ensures IsRun(states, labels) && ReadLimits(labels, L)
    ensures var s := states[|states| - 1];
            Sum(s.calls, Admitted(s.epoch)) == L + s.drift && s.drift == L + 1
  {
    states, labels := DriftStates(L), DriftLabels(L);
    DriftBefore(L);
    DriftAfter(L);
    forall i | 0 <= i < |labels| ensures StepAt(states, labels, i) {}
    SumOfTwo(states[7].calls[0], states[7].calls[1], Admitted(1));
  }

  lemma SumOfTwo(a: Call, b: Call, f: Call -> nat)
    ensures Sum([a, b], f) == f(a) + f(b)
  {
    assert [a, b][..1] == [a] && [a][..0] == [];
    assert Sum([a], f) == f(a);
  }

  // ---- Expiry in time ----

  /** The step ran EXPIRE on the key. */
  predicate Refreshes(l: Label) {
    l.Incr? && l.o != RaisedBefore
  }

  /** When the key will expire: one TTL after the last EXPIRE before step k. A key only ever recorded has none. */
  function ExpiresAt(labels: seq<Label>, times: seq<int>, ttl: nat, k: nat): Option<int>
    requires k <= |labels| == |times|
  {
    if k == 0 then None
    else if Refreshes(labels[k - 1]) then Some(times[k - 1] + ttl)
    else if labels[k - 1].Expire? then None
    else ExpiresAt(labels, times, ttl, k - 1)
  }

  /** Steps happen in time order, and the key expires only once its time has come. */
  ghost predicate Timed(labels: seq<Label>, times: seq<int>, ttl: nat) {
    && |times| == |labels|
    && (forall i, j :: 0 <= i < j < |times| ==> times[i] <= times[j])
    && forall k :: 0 <= k < |labels| && labels[k].Expire? ==>
         var at := ExpiresAt(labels, times, ttl, k); at.Some? && at.value <= times[k]
  }

  /** Between an increment and the next one, or the end of the run, less than one TTL passes. */
  ghost predicate Busy(labels: seq<Label>, times: seq<int>, ttl: nat)
    requires |times| == |labels|
  {
    && (forall i, j :: 0 <= i < j < |labels| && Refreshes(labels[i]) && Refreshes(labels[j]) && Quiet(labels, i, j) ==>
          times[j] - times[i] < ttl)
    && (forall i :: 0 <= i < |labels| && Refreshes(labels[i]) && Quiet(labels, i, |labels|) ==>
          times[|times| - 1] - times[i] < ttl)
  }

  ghost predicate Quiet(labels: seq<Label>, i: nat, j: nat)
    requires j <= |labels|
  {
    forall m :: i < m < j ==> !Refreshes(labels[m])
  }

  lemma {:induction false} LastRefresh(labels: seq<Label>, times: seq<int>, ttl: nat, k: nat) returns (i: nat)
    requires k <= |labels| == |times|
    requires ExpiresAt(labels, times, ttl, k).Some?
    ensures i < k && Refreshes(labels[i]) && Quiet(labels, i, k)
    ensures ExpiresAt(labels, times, ttl, k) == Some(times[i] + ttl)
  {
    if Refreshes(labels[k - 1]) {
      i := k - 1;
    } else {
      i := LastRefresh(labels, times, ttl, k - 1);
    }
  }

  lemma NextRefresh(labels: seq<Label>, i: nat, k: nat) returns (j: nat)
    requires i < k < |labels| && Quiet(labels, i, k) && !Refreshes(labels[k])
    ensures k < j <= |labels| && Quiet(labels, i, j)
    ensures j < |labels| ==> Refreshes(labels[j])
  {
    j := k + 1;
    while j < |labels| && !Refreshes(labels[j])
      invariant k < j <= |labels| && Quiet(labels, i, j)
    {
      j := j + 1;
    }
  }

  lemma BusyKeyNeverExpires(labels: seq<Label>, times: seq<int>, ttl: nat)
    requires Timed(labels, times, ttl) && Busy(labels, times, ttl)
    ensures Expire !in labels
  {
    if Expire in labels {
      var k :| 0 <= k < |labels| && labels[k] == Expire;
      var i := LastRefresh(labels, times, ttl, k);
      var j := NextRefresh(labels, i, k);
      assert false;
    }
  }

  /**
   A window that never ends. Every check, denied ones included, pushes the expiry out again; if increments always come
   less than one TTL apart the key never resets, and the limit meant for one window bounds the whole run.
   */
  lemma BusyKeyNeverResets(states: seq<State>, labels: seq<Label>, times: seq<int>, ttl: nat, i: nat, L: nat)
    requires IsRun(states, labels) && ReadLimits(labels, L) && i < |states|
    requires Timed(labels, times, ttl) && Busy(labels, times, ttl)
    ensures states[i].epoch == 0 && Sum(states[i].calls, Admitted(0)) <= L
  {
    BusyKeyNeverExpires(labels, times, ttl);
    AdmissionSafety(states, labels, i, L);
    NoExpiryNoDrift(states, labels, i);
  }

  /**
   A call that runs alone, as `CheckQuota` does: ALLOWED exactly when the counter plus the amount stays within the
   limit, and the counter moves by the amount exactly then.
   */
  lemma SoloCall(s: State, amount: nat, limit: int)
    ensures var i := |s.calls|;
            var s1 := Next(s, Arrive(amount, limit));
            var s2 := Next(s1, Incr(i, Ok));
            var fits := s.counter + amount <= limit;
            var last := if fits then Allow(i) else Rollback(i, Ok);
            && Enabled(s2, last)
            && Next(s2, last).counter == (if fits then s.counter + amount else s.counter)
            && Next(s2, last).calls[i].phase.verdict == (if fits then Allowed else Denied)
  {}
}
