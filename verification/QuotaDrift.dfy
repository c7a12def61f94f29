/**
 When a quota window can still be overshot. From a state that any run reaches, some continuation before the next expiry
 admits more than the limit in the window exactly when the late rollbacks outweigh what was recorded and stranded
 in it, or the limit is overshot already.
 */
module QuotaDrift {
  import opened QuotaProtocol

  // ---- Continuations without expiry ----

  ghost predicate Permitted(s: State, l: Label, L: nat) {
    Enabled(s, l) && l != Expire && (l.Arrive? ==> l.limit <= L)
  }

  ghost predicate CanDo(s: State, labels: seq<Label>, L: nat)
    decreases |labels|
  {
    |labels| > 0 ==> Permitted(s, labels[0], L) && CanDo(Next(s, labels[0]), labels[1..], L)
  }

  ghost function Last(s: State, labels: seq<Label>, L: nat): State
    requires CanDo(s, labels, L)
    decreases |labels|
  {
    if |labels| == 0 then s else Last(Next(s, labels[0]), labels[1..], L)
  }

  lemma {:induction false} DoBoth(s: State, a: seq<Label>, b: seq<Label>, L: nat)
    requires CanDo(s, a, L) && CanDo(Last(s, a, L), b, L)
    ensures CanDo(s, a + b, L) && Last(s, a + b, L) == Last(Last(s, a, L), b, L)
    decreases |a|
  {
    if |a| == 0 {
      assert a + b == b;
    } else {
      assert (a + b)[1..] == a[1..] + b;
      DoBoth(Next(s, a[0]), a[1..], b, L);
    }
  }

  /** What a run from the start reaches: the state satisfies the invariant and has read no limit above L. */
  ghost predicate Good(s: State, L: nat) {
    Inv(s, L) && LimitsAtMost(s, L)
  }

  lemma NextKeepsGood(s: State, l: Label, L: nat)
    requires Good(s, L) && Permitted(s, l, L)
    ensures Good(Next(s, l), L)
  {
    NextKeepsInv(s, l, L);
    LimitsKept(s, l, L);
  }

  // ---- The two weights ----

  /** A rollback of an earlier epoch still to come. */
  function Late(e: nat): Call -> nat {
    (c: Call) => if c.phase.Counted? && c.phase.epoch != e && c.phase.current > c.limit then c.amount else 0
  }

  /** Rollbacks of earlier epochs, applied in this one or still to come. */
  function Lateness(s: State): nat {
    s.drift + Sum(s.calls, Late(s.epoch))
  }

  /** What fills the window without being admitted: recorded usage and what Redis errors stranded. */
  function Ballast(s: State): nat {
    s.recorded + Sum(s.calls, Stranded(s.epoch))
  }

  function WonNow(s: State): nat {
    Sum(s.calls, Won(s.epoch))
  }

  lemma CounterSplits(s: State, L: nat)
    requires Good(s, L)
    ensures s.counter == WonNow(s) + Sum(s.calls, Pending(s.epoch)) + Ballast(s) - s.drift
    ensures Sum(s.calls, Admitted(s.epoch)) <= WonNow(s)
  {
    HeldSplits(s.calls, s.epoch);
  }

  /** How a step that moves one call shifts the sums. */
  lemma MoveShifts(s: State, i: nat, d: Call)
    requires i < |s.calls|
    ensures var calls, c, e := s.calls[i := d], s.calls[i], s.epoch;
            && Sum(calls, Won(e)) == Sum(s.calls, Won(e)) - Won(e)(c) + Won(e)(d)
            && Sum(calls, Late(e)) == Sum(s.calls, Late(e)) - Late(e)(c) + Late(e)(d)
            && Sum(calls, Stranded(e)) == Sum(s.calls, Stranded(e)) - Stranded(e)(c) + Stranded(e)(d)
  {
    SumUpdate(s.calls, i, d, Won(s.epoch));
    SumUpdate(s.calls, i, d, Late(s.epoch));
    SumUpdate(s.calls, i, d, Stranded(s.epoch));
  }

  // ---- A window that cannot be overshot stays one ----

  ghost predicate Bounded(s: State, L: nat) {
    WonNow(s) <= L && Lateness(s) <= Ballast(s)
  }

  lemma ArriveKeepsBounded(s: State, l: Label, L: nat)
    requires Bounded(s, L) && l.Arrive?
    ensures Bounded(Next(s, l), L)
  {
    assert Next(s, l).calls[..|Next(s, l).calls| - 1] == s.calls;
  }

  lemma IncrKeepsBounded(s: State, l: Label, L: nat)
    requires Good(s, L) && Bounded(s, L) && l.Incr? && Enabled(s, l)
    ensures Bounded(Next(s, l), L)
  {
    var t := Next(s, l);
    assert s.calls[l.i] in s.calls;
    CounterSplits(s, L);
    MoveShifts(s, l.i, t.calls[l.i]);
    assert t.calls == s.calls[l.i := t.calls[l.i]];
  }

  lemma SettleKeepsBounded(s: State, l: Label, L: nat)
    requires Good(s, L) && Bounded(s, L) && (l.Allow? || l.Rollback?) && Enabled(s, l)
    ensures Bounded(Next(s, l), L)
  {
    var t := Next(s, l);
    MoveShifts(s, l.i, t.calls[l.i]);
    assert t.calls == s.calls[l.i := t.calls[l.i]];
  }

  lemma NextKeepsBounded(s: State, l: Label, L: nat)
    requires Good(s, L) && Bounded(s, L) && Permitted(s, l, L)
    ensures Bounded(Next(s, l), L)
  {
    match l {
      case Arrive(_, _) => ArriveKeepsBounded(s, l, L);
      case Incr(_, _) => IncrKeepsBounded(s, l, L);
      case Allow(_) => SettleKeepsBounded(s, l, L);
      case Rollback(_, _) => SettleKeepsBounded(s, l, L);
      case Record(_) =>
    }
  }

  lemma {:induction false} DoingKeepsBounded(s: State, labels: seq<Label>, L: nat)
    requires Good(s, L) && Bounded(s, L) && CanDo(s, labels, L)
    ensures Good(Last(s, labels, L), L) && Bounded(Last(s, labels, L), L)
    decreases |labels|
  {
    if |labels| == 0 {
    } else {
      NextKeepsGood(s, labels[0], L);
      NextKeepsBounded(s, labels[0], L);
      DoingKeepsBounded(Next(s, labels[0]), labels[1..], L);
    }
  }

  // ---- A window that can be overshot: settle everything, then ask for what is left ----

  function Open(c: Call): nat {
    if c.phase.Counted? then 1 else 0
  }

  function SettleLabel(s: State, i: nat): Label
    requires i < |s.calls| && s.calls[i].phase.Counted?
  {
    if s.calls[i].phase.current <= s.calls[i].limit then Allow(i) else Rollback(i, Ok)
  }

  lemma SettleOne(s: State, i: nat, L: nat)
    requires Good(s, L) && i < |s.calls| && s.calls[i].phase.Counted?
    ensures var l := SettleLabel(s, i);
            && Permitted(s, l, L) && Good(Next(s, l), L)
            && Next(s, l).epoch == s.epoch && WonNow(Next(s, l)) == WonNow(s)
            && Lateness(Next(s, l)) == Lateness(s) && Ballast(Next(s, l)) == Ballast(s)
            && Sum(Next(s, l).calls, Open) == Sum(s.calls, Open) - 1
  {
    var l := SettleLabel(s, i);
    var t := Next(s, l);
    NextKeepsGood(s, l, L);
    MoveShifts(s, i, t.calls[i]);
    SumUpdate(s.calls, i, t.calls[i], Open);
    assert t.calls == s.calls[i := t.calls[i]];
  }

  lemma {:induction false} SomeOpen(calls: seq<Call>) returns (i: nat)
    requires Sum(calls, Open) > 0
    ensures i < |calls| && calls[i].phase.Counted?
  {
    var n := |calls| - 1;
    if calls[n].phase.Counted? {
      i := n;
    } else {
      i := SomeOpen(calls[..n]);
    }
  }

  lemma {:induction false} SettleAll(s: State, L: nat) returns (labels: seq<Label>)
    requires Good(s, L)
    ensures CanDo(s, labels, L)
    ensures var t := Last(s, labels, L);
            && Good(t, L) && Sum(t.calls, Open) == 0 && t.epoch == s.epoch
            && WonNow(t) == WonNow(s) && Lateness(t) == Lateness(s) && Ballast(t) == Ballast(s)
    decreases Sum(s.calls, Open)
  {
    if Sum(s.calls, Open) == 0 {
      labels := [];
    } else {
      var i := SomeOpen(s.calls);
      SettleOne(s, i, L);
      var rest := SettleAll(Next(s, SettleLabel(s, i)), L);
      labels := [SettleLabel(s, i)] + rest;
      assert labels[1..] == rest;
    }
  }

  lemma {:induction false} NothingOpen(calls: seq<Call>, e: nat)
    requires Sum(calls, Open) == 0
    ensures Sum(calls, Late(e)) == 0 && Sum(calls, Pending(e)) == 0 && Sum(calls, Admitted(e)) == Sum(calls, Won(e))
  {
    if |calls| == 0 {
    } else {
      NothingOpen(calls[..|calls| - 1], e);
    }
  }

  /** One more call for an amount that fits. */
  lemma AdmitMore(s: State, x: nat, L: nat) returns (labels: seq<Label>)
    requires Good(s, L) && s.counter + x <= L
    ensures CanDo(s, labels, L)
    ensures var t := Last(s, labels, L);
            t.epoch == s.epoch && Sum(t.calls, Admitted(t.epoch)) == Sum(s.calls, Admitted(s.epoch)) + x
  {
    var i := |s.calls|;
    labels := [Arrive(x, L), Incr(i, Ok), Allow(i)];
    var s1 := Next(s, labels[0]);
    var s2 := Next(s1, labels[1]);
    var s3 := Next(s2, labels[2]);
    assert s3.calls == s.calls + [Call(x, L, Settled(Allowed, s.epoch, true))];
    assert s3.calls[..i] == s.calls;
    assert labels[1..] == [Incr(i, Ok), Allow(i)] && labels[1..][1..] == [Allow(i)] && labels[1..][1..][1..] == [];
    assert CanDo(s2, [Allow(i)], L) && Last(s2, [Allow(i)], L) == s3;
    assert CanDo(s1, labels[1..], L) && Last(s1, labels[1..], L) == s3;
  }

  /** Some continuation before the next expiry admits more than L in the window. */
  ghost predicate CanOvershoot(s: State, L: nat) {
    exists labels :: CanDo(s, labels, L) && Overshot(Last(s, labels, L), L)
  }

  ghost predicate Overshot(s: State, L: nat) {
    Sum(s.calls, Admitted(s.epoch)) > L
  }

  lemma OvershootsIfHeavy(s: State, L: nat)
    requires Good(s, L) && !Bounded(s, L)
    ensures CanOvershoot(s, L)
  {
    var labels := SettleAll(s, L);
    var t := Last(s, labels, L);
    NothingOpen(t.calls, t.epoch);
    CounterSplits(t, L);
    if WonNow(s) > L {
      assert Overshot(t, L);
    } else {
      var x: nat := L - t.counter;
      var more := AdmitMore(t, x, L);
      DoBoth(s, labels, more, L);
      assert Overshot(Last(s, labels + more, L), L);
    }
  }

  /**
   When the window limit can still be overshot. In every state a run reaches, a continuation without expiry can admit
   more than L in the current window if and only if increments that won already exceed L, or the
   rollbacks of earlier windows, applied or still to come, exceed what this window's recorded usage and stranded
   amounts fill.
   */
  lemma CanOvershootIff(states: seq<State>, labels: seq<Label>, i: nat, L: nat)
    requires IsRun(states, labels) && ReadLimits(labels, L) && i < |states|
    ensures CanOvershoot(states[i], L) <==>
            WonNow(states[i]) > L || Lateness(states[i]) > Ballast(states[i])
  {
    RunInv(states, labels, i, L);
    var s := states[i];
    if Bounded(s, L) {
      forall more | CanDo(s, more, L) ensures !Overshot(Last(s, more, L), L) {
        DoingKeepsBounded(s, more, L);
        CounterSplits(Last(s, more, L), L);
      }
    } else {
      OvershootsIfHeavy(s, L);
    }
  }
}
