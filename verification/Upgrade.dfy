/**
 The coordinated upgrade of the pipeline operator (services/pipeline-operator/operator/handlers.py): suspend the
 connectors, drain Kafka, roll the services, check their health, resume the connectors.

 An attempt is a plan of API calls that took effect. Any call may raise, which leaves a prefix of the plan; the
 framework then retries the whole handler.
 */
module Upgrade {
  import opened Lexicographic
  import opened Options

  // ---- Versions ----

  /** `v.split(".")`. */
  function Split(v: string): (parts: seq<string>)
    ensures |parts| > 0
  {
    if |v| == 0 then [""]
    else
      var rest := Split(v[1..]);
      if v[0] == '.' then [""] + rest else [[v[0]] + rest[0]] + rest[1..]
  }

  function Ints(parse: string -> Option<int>, parts: seq<string>): Option<seq<int>> {
    if |parts| == 0 then Some([])
    else
      match parse(parts[0])
      case None => None
      case Some(n) =>
        match Ints(parse, parts[1..])
        case None => None
        case Some(rest) => Some([n] + rest)
  }

  /** `parse` is Python's `int`; a version with a part that is no integer counts as (0,). */
  function Parts(parse: string -> Option<int>, v: string): seq<int> {
    Ints(parse, Split(v)).GetOr([0])
  }

  predicate VersionLt(parse: string -> Option<int>, v1: string, v2: string) {
    Less(Parts(parse, v1), Parts(parse, v2))
  }

  /** Of two versions with different parts, exactly one is the smaller; versions with the same parts tie. */
  lemma VersionsAreOrdered(parse: string -> Option<int>, v1: string, v2: string, v3: string)
    ensures VersionLt(parse, v1, v2) || VersionLt(parse, v2, v1) <==> Parts(parse, v1) != Parts(parse, v2)
    ensures !(VersionLt(parse, v1, v2) && VersionLt(parse, v2, v1))
    ensures VersionLt(parse, v1, v2) && VersionLt(parse, v2, v3) ==> VersionLt(parse, v1, v3)
  {
    LessIsTotal(Parts(parse, v1), Parts(parse, v2));
    if VersionLt(parse, v1, v2) && VersionLt(parse, v2, v3) {
      LessIsTransitive(Parts(parse, v1), Parts(parse, v2), Parts(parse, v3));
    }
  }

  // ---- Draining the consumer lag ----

  /** The lag each read returns, the time it takes, and by how much the sleep after it overruns. */
  datatype Timeline = Timeline(lag: nat -> int, takes: nat -> real, extra: nat -> real)

  ghost predicate Forward(t: Timeline) {
    forall n: nat :: t.takes(n) >= 0.0 && t.extra(n) >= 0.0
  }

  /** How many sleeps of 5 seconds it takes to cover `span`, the last one rounded up. */
  function Sleeps(span: real): nat {
    if span <= 0.0 then 0 else
      assert (-span / 5.0).Floor < 0;
      -((-span / 5.0).Floor)
  }

  lemma SleepsOneLess(span: real)
    requires span > 5.0
    ensures Sleeps(span - 5.0) == Sleeps(span) - 1
  {
    assert -(span - 5.0) / 5.0 == -span / 5.0 + 1.0;
  }

  lemma SleepsMonotone(a: real, b: real)
    requires a <= b
    ensures Sleeps(a) <= Sleeps(b)
  {
    if a > 0.0 {
      assert -b / 5.0 <= -a / 5.0;
    }
  }

  lemma SleepShortens(remaining: real, extra: real)
    requires remaining > 0.0 && extra >= 0.0
    ensures var slept := (if remaining < 5.0 then remaining else 5.0) + extra;
            Sleeps(remaining - slept) <= Sleeps(remaining) - 1
  {
    if remaining > 5.0 {
      SleepsOneLess(remaining);
      SleepsMonotone(remaining - 5.0 - extra, remaining - 5.0);
    }
  }

  datatype Drained = Drained(lags: seq<int>, ok: bool)

  /** The reads from the n-th on, and whether the last of them was 0. */
  ghost function Drain(t: Timeline, deadline: real, now: real, n: nat): Drained
    requires Forward(t)
    decreases Sleeps(deadline - now)
  {
    var remaining := deadline - (now + t.takes(n));
    if t.lag(n) == 0 then Drained([0], true)
    else if remaining <= 0.0 then Drained([t.lag(n)], false)
    else
      SleepShortens(remaining, t.extra(n));
      SleepsMonotone(remaining, deadline - now);
      var later := Drain(t, deadline, AfterSleep(t, deadline, now, n), n + 1);
      Drained([t.lag(n)] + later.lags, later.ok)
  }

  function AfterSleep(t: Timeline, deadline: real, now: real, n: nat): real {
    var remaining := deadline - (now + t.takes(n));
    now + t.takes(n) + ((if remaining < 5.0 then remaining else 5.0) + t.extra(n))
  }

  /** All reads but the last are nonzero, and the drain succeeds exactly when the last is 0. */
  lemma {:induction false} DrainReads(t: Timeline, deadline: real, now: real, n: nat)
    requires Forward(t)
    ensures var d := Drain(t, deadline, now, n);
            && |d.lags| > 0
            && (forall k :: 0 <= k < |d.lags| ==> d.lags[k] == t.lag(n + k))
            && (forall k :: 0 <= k < |d.lags| - 1 ==> d.lags[k] != 0)
            && (d.ok <==> d.lags[|d.lags| - 1] == 0)
    decreases Sleeps(deadline - now)
  {
    var remaining := deadline - (now + t.takes(n));
    if t.lag(n) != 0 && remaining > 0.0 {
      SleepShortens(remaining, t.extra(n));
      SleepsMonotone(remaining, deadline - now);
      DrainReads(t, deadline, AfterSleep(t, deadline, now, n), n + 1);
      var later := Drain(t, deadline, AfterSleep(t, deadline, now, n), n + 1);
      assert Drain(t, deadline, now, n).lags == [t.lag(n)] + later.lags;
      forall k | 0 <= k < |later.lags| ensures later.lags[k] == t.lag(n + (k + 1)) {
        assert later.lags[k] == t.lag(n + 1 + k);
      }
    }
  }

  /** However long the reads and sleeps take, the lag is read at most ceil(timeout / 5) + 1 times. */
  lemma {:induction false} DrainBound(t: Timeline, deadline: real, now: real, n: nat)
    requires Forward(t)
    ensures |Drain(t, deadline, now, n).lags| <= Sleeps(deadline - now) + 1
    decreases Sleeps(deadline - now)
  {
    var remaining := deadline - (now + t.takes(n));
    if t.lag(n) != 0 && remaining > 0.0 {
      SleepShortens(remaining, t.extra(n));
      SleepsMonotone(remaining, deadline - now);
      DrainBound(t, deadline, AfterSleep(t, deadline, now, n), n + 1);
    }
  }

  /** The bound is reached by a lag that never drains, read without delay. */
  lemma {:induction false} DrainBoundIsReached(t: Timeline, deadline: real, now: real, n: nat)
    requires forall k: nat :: t.takes(k) == 0.0 && t.extra(k) == 0.0 && t.lag(k) != 0
    ensures |Drain(t, deadline, now, n).lags| == Sleeps(deadline - now) + 1
    decreases Sleeps(deadline - now)
  {
    var remaining := deadline - now;
    if remaining > 0.0 {
      SleepShortens(remaining, 0.0);
      var next := AfterSleep(t, deadline, now, n);
      DrainBoundIsReached(t, deadline, next, n + 1);
      if remaining > 5.0 {
        SleepsOneLess(remaining);
        assert deadline - next == remaining - 5.0;
      } else {
        assert deadline - next == 0.0;
        assert -1.0 <= -remaining / 5.0 < 0.0;
        assert Sleeps(remaining) == 1;
      }
    }
  }

  // ---- One attempt ----

  datatype Effect =
    | Flag(inProgress: bool)          // upgradeInProgress and state in the status patch
    | ListedCrons(crons: seq<string>)
    | Suspended(cron: string)
    | LagRead(lag: int)
    | Restarted(service: string)
    | BecameReady(service: string)
    | Health(status: int)
    | Resumed(cron: string)

  datatype Env = Env(crons: seq<string>, timeline: Timeline, start: real, timeout: real, health: int)

  datatype Cluster = Cluster(suspended: set<string>, inProgress: bool)

  function Apply(c: Cluster, e: Effect): Cluster {
    match e
    case Flag(inProgress) => c.(inProgress := inProgress)
    case Suspended(cron) => c.(suspended := c.suspended + {cron})
    case Resumed(cron) => c.(suspended := c.suspended - {cron})
    case _ => c
  }

  function SetOf(crons: seq<string>): set<string> {
    set c | c in crons
  }

  function ApplyAll(c: Cluster, es: seq<Effect>): Cluster
    decreases |es|
  {
    if |es| == 0 then c else ApplyAll(Apply(c, es[0]), es[1..])
  }

  function Suspends(crons: seq<string>): seq<Effect> {
    seq(|crons|, i requires 0 <= i < |crons| => Suspended(crons[i]))
  }

  function Lags(lags: seq<int>): seq<Effect> {
    seq(|lags|, i requires 0 <= i < |lags| => LagRead(lags[i]))
  }

  function Rolls(services: seq<string>): seq<Effect> {
    if |services| == 0 then [] else [Restarted(services[0]), BecameReady(services[0])] + Rolls(services[1..])
  }

  function Resumes(crons: seq<string>): seq<Effect> {
    seq(|crons|, i requires 0 <= i < |crons| => Resumed(crons[i]))
  }

  ghost function DrainOf(env: Env): Drained
    requires Forward(env.timeline)
  {
    Drain(env.timeline, env.start + env.timeout, env.start, 0)
  }

  ghost function Prepare(env: Env): seq<Effect>
    requires Forward(env.timeline)
  {
    [Flag(true), ListedCrons(env.crons)] + Suspends(env.crons) + Lags(DrainOf(env).lags)
  }

  ghost function Plan(services: seq<string>, env: Env): seq<Effect>
    requires Forward(env.timeline)
  {
    if !DrainOf(env).ok then Prepare(env)
    else if env.health != 200 then Prepare(env) + (Rolls(services) + [Health(env.health)])
    else Prepare(env) + (Rolls(services) + [Health(200)]) + (Resumes(env.crons) + [Flag(false)])
  }

  ghost predicate Succeeds(env: Env)
    requires Forward(env.timeline)
  {
    DrainOf(env).ok && env.health == 200
  }

  const UPGRADE_ORDER := ["doc-processor", "embedding-worker", "rag-api"]

  function Reversed(s: seq<string>): seq<string> {
    if |s| == 0 then [] else Reversed(s[1..]) + [s[0]]
  }

  function RollOrder(parse: string -> Option<int>, oldVersion: string, newVersion: string): seq<string> {
    if VersionLt(parse, newVersion, oldVersion) then Reversed(UPGRADE_ORDER) else UPGRADE_ORDER
  }

  predicate IsNoOp(oldVersion: string, newVersion: string) {
    oldVersion == "" || oldVersion == newVersion
  }

  class Operator {
    const parse: string -> Option<int>
    var suspended: set<string>
    var inProgress: bool
    ghost var log: seq<Effect>

    ghost function View(): Cluster
      reads this
    {
      Cluster(suspended, inProgress)
    }

    constructor (parse: string -> Option<int>, suspended: set<string>, inProgress: bool)
      ensures this.parse == parse && View() == Cluster(suspended, inProgress) && log == []
    {
      this.parse, this.suspended, this.inProgress, this.log := parse, suspended, inProgress, [];
    }

    /** One drain; false stands for the error raised on timeout. */
    method DrainKafkaLag(t: Timeline, start: real, timeout: real) returns (ok: bool)
      requires Forward(t)
      modifies this`log
      ensures var d := Drain(t, start + timeout, start, 0); ok == d.ok && log == old(log) + Lags(d.lags)
    {
      var deadline := start + timeout;
      var now := start;
      var n := 0;
      ghost var d := Drain(t, deadline, start, 0);
      ghost var before := [];
      while true
        invariant log == old(log) + Lags(before)
        invariant DrainLeft(t, deadline, now, n, before, d)
        decreases Sleeps(deadline - now)
      {
        var lag := t.lag(n);
        log := log + [LagRead(lag)];
        OneMoreRead(t, deadline, now, n, before, d);
        before := before + [lag];
        var remaining := deadline - (now + t.takes(n));
        if lag == 0 {
          return true;
        }
        if remaining <= 0.0 {
          return false;
        }
        now := AfterSleep(t, deadline, now, n);
        n := n + 1;
      }
    }

    method SuspendAll(crons: seq<string>)
      modifies this`suspended, this`log
      ensures log == old(log) + Suspends(crons)
      ensures suspended == old(suspended) + SetOf(crons)
    {
      for i := 0 to |crons|
        invariant log == old(log) + Suspends(crons)[..i]
        invariant suspended == old(suspended) + SetOf(crons[..i])
      {
        suspended := suspended + {crons[i]};
        log := log + [Suspended(crons[i])];
        assert crons[..i + 1] == crons[..i] + [crons[i]];
        assert SetOf(crons[..i + 1]) == SetOf(crons[..i]) + {crons[i]};
      }
      assert crons[..|crons|] == crons;
    }

    method ResumeAll(crons: seq<string>)
      modifies this`suspended, this`log
      ensures log == old(log) + Resumes(crons)
      ensures suspended == old(suspended) - SetOf(crons)
    {
      for i := 0 to |crons|
        invariant log == old(log) + Resumes(crons)[..i]
        invariant suspended == old(suspended) - SetOf(crons[..i])
      {
        suspended := suspended - {crons[i]};
        log := log + [Resumed(crons[i])];
        assert crons[..i + 1] == crons[..i] + [crons[i]];
        assert SetOf(crons[..i + 1]) == SetOf(crons[..i]) + {crons[i]};
      }
      assert crons[..|crons|] == crons;
    }

    method RollAll(services: seq<string>)
      modifies this`log
      ensures log == old(log) + Rolls(services)
    {
      var i := 0;
      while i < |services|
        invariant i <= |services|
        invariant log + Rolls(services[i..]) == old(log) + Rolls(services)
      {
        assert services[i..][1..] == services[i + 1..];
        log := log + [Restarted(services[i])];
        log := log + [BecameReady(services[i])];
        i := i + 1;
      }
    }

    method SuspendAndDrain(env: Env) returns (drained: bool)
      requires Forward(env.timeline)
      modifies this
      ensures drained == DrainOf(env).ok
      ensures log == old(log) + Prepare(env)
      ensures View() == Cluster(old(suspended) + SetOf(env.crons), true)
    {
      inProgress := true;
      log := log + [Flag(true), ListedCrons(env.crons)];
      SuspendAll(env.crons);
      drained := DrainKafkaLag(env.timeline, env.start, env.timeout);
    }

    method RollAndCheck(services: seq<string>, status: int)
      modifies this`log
      ensures log == old(log) + (Rolls(services) + [Health(status)])
    {
      RollAll(services);
      log := log + [Health(status)];
    }

    method ResumeAndFinish(crons: seq<string>)
      modifies this
      ensures log == old(log) + (Resumes(crons) + [Flag(false)])
      ensures View() == Cluster(old(suspended) - SetOf(crons), false)
    {
      ResumeAll(crons);
      inProgress := false;
      log := log + [Flag(false)];
    }

    /** An attempt in which no call raises by itself; false stands for the two errors the handler raises. */
    method RunCoordinatedUpgrade(services: seq<string>, env: Env) returns (ok: bool)
      requires Forward(env.timeline)
      modifies this
      ensures ok == Succeeds(env)
      ensures log == old(log) + Plan(services, env)
      ensures View() == ApplyAll(old(View()), Plan(services, env))
    {
      PlanApplied(View(), services, env);
      Associate(log, Prepare(env), Rolls(services) + [Health(env.health)], Resumes(env.crons) + [Flag(false)]);
      var drained := SuspendAndDrain(env);
      if !drained {
        return false;
      }
      RollAndCheck(services, env.health);
      if env.health != 200 {
        return false;
      }
      ResumeAndFinish(env.crons);
      return true;
    }

    /** Without a recorded version, or with an unchanged one, nothing happens at all. */
    method Reconcile(oldVersion: string, newVersion: string, env: Env) returns (ok: bool)
      requires Forward(env.timeline)
      modifies this
      ensures IsNoOp(oldVersion, newVersion) ==> ok && View() == old(View()) && log == old(log)
      ensures !IsNoOp(oldVersion, newVersion) ==>
                var plan := Plan(RollOrder(parse, oldVersion, newVersion), env);
                ok == Succeeds(env) && log == old(log) + plan && View() == ApplyAll(old(View()), plan)
    {
      if oldVersion == "" || oldVersion == newVersion {
        return true;
      }
      ok := RunCoordinatedUpgrade(RollOrder(parse, oldVersion, newVersion), env);
    }
  }

  lemma Associate(s: seq<Effect>, a: seq<Effect>, b: seq<Effect>, c: seq<Effect>)
    ensures s + a + b == s + (a + b)
    ensures s + a + b + c == s + (a + b + c)
  {}

  /** The reads made so far, `before`, and those still to come make up the whole drain. */
  ghost predicate DrainLeft(t: Timeline, deadline: real, now: real, n: nat, before: seq<int>, d: Drained)
    requires Forward(t)
  {
    var rest := Drain(t, deadline, now, n);
    d.ok == rest.ok && d.lags == before + rest.lags
  }

  lemma OneMoreRead(t: Timeline, deadline: real, now: real, n: nat, before: seq<int>, d: Drained)
    requires Forward(t) && DrainLeft(t, deadline, now, n, before, d)
    ensures Lags(before + [t.lag(n)]) == Lags(before) + [LagRead(t.lag(n))]
    ensures if t.lag(n) != 0 && deadline - (now + t.takes(n)) > 0.0 then
              && Sleeps(deadline - AfterSleep(t, deadline, now, n)) < Sleeps(deadline - now)
              && DrainLeft(t, deadline, AfterSleep(t, deadline, now, n), n + 1, before + [t.lag(n)], d)
            else d == Drained(before + [t.lag(n)], t.lag(n) == 0)
  {
    var remaining := deadline - (now + t.takes(n));
    if t.lag(n) != 0 && remaining > 0.0 {
      SleepShortens(remaining, t.extra(n));
      SleepsMonotone(remaining, deadline - now);
      var later := Drain(t, deadline, AfterSleep(t, deadline, now, n), n + 1);
      assert before + ([t.lag(n)] + later.lags) == (before + [t.lag(n)]) + later.lags;
    }
  }

  // ---- What a prefix of a plan does to the cluster ----

  lemma {:induction false} ApplySum(c: Cluster, a: seq<Effect>, b: seq<Effect>)
    ensures ApplyAll(c, a + b) == ApplyAll(ApplyAll(c, a), b)
    decreases |a|
  {
    if |a| == 0 {
      assert a + b == b;
    } else {
      assert (a + b)[1..] == a[1..] + b;
      ApplySum(Apply(c, a[0]), a[1..], b);
    }
  }

  predicate Quiet(e: Effect) {
    !e.Flag? && !e.Suspended? && !e.Resumed?
  }

  lemma {:induction false} QuietChangesNothing(c: Cluster, es: seq<Effect>)
    requires forall i :: 0 <= i < |es| ==> Quiet(es[i])
    ensures ApplyAll(c, es) == c
  {
    if |es| == 0 {
    } else {
      assert Quiet(es[0]);
      QuietChangesNothing(c, es[1..]);
    }
  }

  lemma {:induction false} SuspendsApplied(c: Cluster, crons: seq<string>)
    ensures ApplyAll(c, Suspends(crons)) == c.(suspended := c.suspended + SetOf(crons))
    decreases |crons|
  {
    if |crons| == 0 {
    } else {
      assert Suspends(crons)[1..] == Suspends(crons[1..]);
      assert SetOf(crons) == {crons[0]} + SetOf(crons[1..]);
      SuspendsApplied(Apply(c, Suspended(crons[0])), crons[1..]);
    }
  }

  lemma {:induction false} ResumesApplied(c: Cluster, crons: seq<string>)
    ensures ApplyAll(c, Resumes(crons)) == c.(suspended := c.suspended - SetOf(crons))
    decreases |crons|
  {
    if |crons| == 0 {
    } else {
      assert Resumes(crons)[1..] == Resumes(crons[1..]);
      assert SetOf(crons) == {crons[0]} + SetOf(crons[1..]);
      ResumesApplied(Apply(c, Resumed(crons[0])), crons[1..]);
    }
  }

  lemma {:induction false} RollsAreQuiet(services: seq<string>)
    ensures forall i :: 0 <= i < |Rolls(services)| ==> Rolls(services)[i].Restarted? || Rolls(services)[i].BecameReady?
  {
    if |services| == 0 {
    } else {
      RollsAreQuiet(services[1..]);
    }
  }

  lemma PrepareApplied(c: Cluster, env: Env)
    requires Forward(env.timeline)
    ensures ApplyAll(c, Prepare(env)) == Cluster(c.suspended + SetOf(env.crons), true)
  {
    var head := [Flag(true), ListedCrons(env.crons)];
    var lags := Lags(DrainOf(env).lags);
    ApplySum(c, head + Suspends(env.crons), lags);
    ApplySum(c, head, Suspends(env.crons));
    assert head[1..] == [ListedCrons(env.crons)] && head[1..][1..] == [];
    assert ApplyAll(c, head) == ApplyAll(Apply(c, head[0]), [ListedCrons(env.crons)]) ==
        Apply(Apply(c, head[0]), head[1]);
    SuspendsApplied(ApplyAll(c, head), env.crons);
    QuietChangesNothing(ApplyAll(c, head + Suspends(env.crons)), lags);
  }

  /** The middle of a plan, from the first restart to the health check, changes no connector and no flag. */
  lemma RollingApplied(c: Cluster, services: seq<string>, env: Env)
    requires Forward(env.timeline)
    ensures ApplyAll(c, Prepare(env) + (Rolls(services) + [Health(env.health)])) ==
        Cluster(c.suspended + SetOf(env.crons), true)
  {
    PrepareApplied(c, env);
    RollsAreQuiet(services);
    ApplySum(c, Prepare(env), Rolls(services) + [Health(env.health)]);
    QuietChangesNothing(ApplyAll(c, Prepare(env)), Rolls(services) + [Health(env.health)]);
  }

  lemma FinishApplied(c: Cluster, crons: seq<string>)
    ensures ApplyAll(c, Resumes(crons) + [Flag(false)]) == Cluster(c.suspended - SetOf(crons), false)
  {
    ApplySum(c, Resumes(crons), [Flag(false)]);
    ResumesApplied(c, crons);
    assert [Flag(false)][1..] == [];
  }

  lemma PlanApplied(c: Cluster, services: seq<string>, env: Env)
    requires Forward(env.timeline)
    ensures ApplyAll(c, Plan(services, env)) ==
            if Succeeds(env) then Cluster(c.suspended - SetOf(env.crons), false)
            else Cluster(c.suspended + SetOf(env.crons), true)
  {
    PrepareApplied(c, env);
    RollingApplied(c, services, env);
    if Succeeds(env) {
      var rolled := Prepare(env) + (Rolls(services) + [Health(200)]);
      ApplySum(c, rolled, Resumes(env.crons) + [Flag(false)]);
      FinishApplied(ApplyAll(c, rolled), env.crons);
      assert c.suspended + SetOf(env.crons) - SetOf(env.crons) == c.suspended - SetOf(env.crons);
    }
  }

  // ---- Every prefix of a plan ----

  ghost function PrepareEnd(env: Env): nat
    requires Forward(env.timeline)
  {
    2 + |env.crons| + |DrainOf(env).lags|
  }

  /** What stands where in a prefix of a plan whose lag reads end at p. */
  ghost predicate Placed(services: seq<string>, env: Env, p: nat, done: seq<Effect>) {
    && p > 2 + |env.crons|
    && (|done| > 0 ==> done[0] == Flag(true))
    && (|done| > 1 ==> done[1] == ListedCrons(env.crons))
    && (forall i :: 2 <= i < 2 + |env.crons| && i < |done| ==> done[i] == Suspended(env.crons[i - 2]))
    && (forall i :: 2 + |env.crons| <= i < p && i < |done| ==> done[i].LagRead?)
    && (|done| > p ==> done[p - 1] == LagRead(0))
    && PlacedAfter(services, env, p, p + |Rolls(services)|, done)
  }

  ghost predicate PlacedAfter(services: seq<string>, env: Env, p: nat, r: nat, done: seq<Effect>) {
    && p + |Rolls(services)| == r
    && (forall i :: p <= i < r && i < |done| ==> done[i] == Rolls(services)[i - p])
    && (|done| > r ==> done[r] == Health(env.health))
    && (|done| > r + 1 ==> env.health == 200)
    && |done| <= r + 2 + |env.crons|
    && (forall i :: r < i <= r + |env.crons| && i < |done| ==> done[i] == Resumed(env.crons[i - r - 1]))
    && (|done| == r + 2 + |env.crons| ==> done[|done| - 1] == Flag(false))
  }

  lemma PreparePlaced(services: seq<string>, env: Env)
    requires Forward(env.timeline)
    ensures Placed(services, env, PrepareEnd(env), Prepare(env)) && |Prepare(env)| == PrepareEnd(env)
    ensures DrainOf(env).ok ==> Prepare(env)[PrepareEnd(env) - 1] == LagRead(0)
  {
    DrainReads(env.timeline, env.start + env.timeout, env.start, 0);
  }

  lemma RolledPlaced(services: seq<string>, env: Env, p: nat, prepared: seq<Effect>)
    requires Placed(services, env, p, prepared) && |prepared| == p && prepared[p - 1] == LagRead(0)
    ensures Placed(services, env, p, prepared + (Rolls(services) + [Health(env.health)]))
  {
    var rolled := Rolls(services) + [Health(env.health)];
    var done := prepared + rolled;
    assert forall i :: 0 <= i < p ==> done[i] == prepared[i];
    assert forall i :: p <= i < |done| ==> done[i] == rolled[i - p];
  }

  lemma FinishedPlaced(services: seq<string>, env: Env, p: nat, rolled: seq<Effect>)
    requires Placed(services, env, p, rolled) && |rolled| == p + |Rolls(services)| + 1 && env.health == 200
    ensures Placed(services, env, p, rolled + (Resumes(env.crons) + [Flag(false)]))
  {
    var finish := Resumes(env.crons) + [Flag(false)];
    var done := rolled + finish;
    assert forall i :: 0 <= i < |rolled| ==> done[i] == rolled[i];
    assert forall i :: |rolled| <= i < |done| ==> done[i] == finish[i - |rolled|];
  }

  lemma StillPlaced(services: seq<string>, env: Env, p: nat, plan: seq<Effect>, done: seq<Effect>)
    requires Placed(services, env, p, plan) && done <= plan
    ensures Placed(services, env, p, done)
  {
    assert forall i :: 0 <= i < |done| ==> done[i] == plan[i];
  }

  lemma PrefixPlaced(services: seq<string>, env: Env, done: seq<Effect>)
    requires Forward(env.timeline) && done <= Plan(services, env)
    ensures Placed(services, env, PrepareEnd(env), done)
    ensures Succeeds(env) && done == Plan(services, env) <==>
            |done| == PrepareEnd(env) + |Rolls(services)| + 2 + |env.crons|
  {
    PreparePlaced(services, env);
    if DrainOf(env).ok {
      RolledPlaced(services, env, PrepareEnd(env), Prepare(env));
      if env.health == 200 {
        FinishedPlaced(services, env, PrepareEnd(env), Prepare(env) + (Rolls(services) + [Health(200)]));
      }
    }
    StillPlaced(services, env, PrepareEnd(env), Plan(services, env), done);
  }

  /** The lag was read as 0 at position j, with every listed connector suspended before and none touched since. */
  ghost predicate DrainedAt(crons: seq<string>, done: seq<Effect>, j: nat, i: nat) {
    && j < i <= |done| && done[j] == LagRead(0)
    && (forall k :: j < k < i ==> !done[k].Suspended? && !done[k].Resumed?)
    && (forall cron :: cron in crons ==> Suspended(cron) in done[..j])
  }

  /**
   No service is restarted before every connector this attempt listed is suspended and the lag has been read as 0 after
   the last suspension; and directly before a restart lies that read or the readiness of the service before.
   */
  lemma RestartIsSafe(c: Cluster, services: seq<string>, env: Env, done: seq<Effect>, i: nat)
    requires Forward(env.timeline) && done <= Plan(services, env)
    requires i < |done| && done[i].Restarted?
    ensures SetOf(env.crons) <= ApplyAll(c, done[..i]).suspended
    ensures exists j: nat :: DrainedAt(env.crons, done, j, i)
    ensures i > 0 && (done[i - 1] == LagRead(0) || done[i - 1].BecameReady?)
  {
    PrefixPlaced(services, env, done);
    RestartAfterDrain(services, env, PrepareEnd(env), done, i);
    var j := PrepareEnd(env) - 1;
    forall cron | cron in env.crons ensures cron in ApplyAll(c, done[..i]).suspended {
      assert done[..j] <= done[..i];
      StaysSuspended(c, done[..i], cron);
    }
  }

  lemma RestartAfterDrain(services: seq<string>, env: Env, p: nat, done: seq<Effect>, i: nat)
    requires Placed(services, env, p, done) && i < |done| && done[i].Restarted?
    ensures DrainedAt(env.crons, done, p - 1, i)
    ensures done[i - 1] == LagRead(0) || done[i - 1].BecameReady?
    ensures forall k :: 0 <= k < i ==> !done[k].Resumed?
  {
    RollsAreQuiet(services);
    assert p <= i < p + |Rolls(services)|;
    forall cron | cron in env.crons ensures Suspended(cron) in done[..p - 1] {
      var k :| 0 <= k < |env.crons| && env.crons[k] == cron;
      assert done[..p - 1][k + 2] == Suspended(cron);
    }
    if i > p {
      ReadyBeforeRestart(services, i - p);
    }
  }

  lemma {:induction false} ReadyBeforeRestart(services: seq<string>, i: nat)
    requires 0 < i < |Rolls(services)| && Rolls(services)[i].Restarted?
    ensures Rolls(services)[i - 1].BecameReady?
  {
    if i > 2 {
      ReadyBeforeRestart(services[1..], i - 2);
    }
  }

  lemma {:induction false} StaysSuspended(c: Cluster, es: seq<Effect>, cron: string)
    requires cron in c.suspended || Suspended(cron) in es
    requires Resumed(cron) !in es
    ensures cron in ApplyAll(c, es).suspended
    decreases |es|
  {
    if |es| == 0 {
    } else {
      assert es[0] in es;
      StaysSuspended(Apply(c, es[0]), es[1..], cron);
    }
  }

  /** The service has become ready at some point before i and was not restarted since. */
  ghost predicate ReadySince(done: seq<Effect>, service: string, i: nat) {
    exists m: nat :: IsReadyPoint(done, service, m, i)
  }

  ghost predicate IsReadyPoint(done: seq<Effect>, service: string, m: nat, i: nat) {
    m < i <= |done| && done[m] == BecameReady(service) && forall k :: m < k < i ==> done[k] != Restarted(service)
  }

  lemma {:induction false} RolledIsReady(services: seq<string>, service: string)
    requires service in services
    ensures ReadySince(Rolls(services), service, |Rolls(services)|)
  {
    var rest := Rolls(services[1..]);
    if service in services[1..] {
      RolledIsReady(services[1..], service);
      var m: nat :| IsReadyPoint(rest, service, m, |rest|);
      assert IsReadyPoint(Rolls(services), service, m + 2, |Rolls(services)|);
    } else {
      RestartsOnlyServices(services[1..], service);
      assert IsReadyPoint(Rolls(services), service, 1, |Rolls(services)|);
    }
  }

  lemma {:induction false} RestartsOnlyServices(services: seq<string>, service: string)
    ensures Restarted(service) in Rolls(services) ==> service in services
  {
    if |services| == 0 {
    } else {
      RestartsOnlyServices(services[1..], service);
    }
  }

  /**
   Nothing is resumed before the health check returned 200, and before that every service was ready after its restart.
   */
  lemma ResumeIsSafe(services: seq<string>, env: Env, done: seq<Effect>, i: nat)
    requires Forward(env.timeline) && done <= Plan(services, env)
    requires i < |done| && done[i].Resumed?
    ensures exists h: nat :: h < i && done[h] == Health(200) && forall s :: s in services ==> ReadySince(done, s, h)
  {
    PrefixPlaced(services, env, done);
    ResumeAfterHealth(services, env, PrepareEnd(env), done, i);
  }

  lemma ResumeAfterHealth(services: seq<string>, env: Env, p: nat, done: seq<Effect>, i: nat)
    requires Placed(services, env, p, done) && i < |done| && done[i].Resumed?
    ensures var h := p + |Rolls(services)|;
            h < i && done[h] == Health(200) && forall s :: s in services ==> ReadySince(done, s, h)
  {
    RollsAreQuiet(services);
    var h := p + |Rolls(services)|;
    assert h < i;
    forall s | s in services ensures ReadySince(done, s, h) {
      RolledIsReady(services, s);
      var m: nat :| IsReadyPoint(Rolls(services), s, m, |Rolls(services)|);
      assert IsReadyPoint(done, s, p + m, h);
    }
  }

  // ---- Where an attempt leaves the connectors ----

  lemma {:induction false} SuspendedBounds(c: Cluster, es: seq<Effect>, crons: set<string>)
    requires forall k :: 0 <= k < |es| && (es[k].Suspended? || es[k].Resumed?) ==> es[k].cron in crons
    ensures c.suspended - crons <= ApplyAll(c, es).suspended <= c.suspended + crons
    decreases |es|
  {
    if |es| == 0 {
    } else {
      SuspendedBounds(Apply(c, es[0]), es[1..], crons);
    }
  }

  lemma {:induction false} FlagKept(c: Cluster, es: seq<Effect>)
    requires c.inProgress && forall k :: 0 <= k < |es| ==> es[k] != Flag(false)
    ensures ApplyAll(c, es).inProgress
    decreases |es|
  {
    if |es| == 0 {
    } else {
      assert es[0] != Flag(false);
      FlagKept(Apply(c, es[0]), es[1..]);
    }
  }

  lemma PlacedTouchesListed(services: seq<string>, env: Env, p: nat, done: seq<Effect>)
    requires Placed(services, env, p, done)
    ensures forall k :: 0 <= k < |done| && (done[k].Suspended? || done[k].Resumed?) ==> done[k].cron in SetOf(env.crons)
    ensures forall k :: 0 <= k < |done| && done[k] == Flag(false) ==> k == p + |Rolls(services)| + 1 + |env.crons|
    ensures Health(200) !in done ==> forall k :: 0 <= k < |done| ==> !done[k].Resumed?
  {
    RollsAreQuiet(services);
    var r := p + |Rolls(services)|;
    assert |done| > r + 1 ==> done[r] == Health(200);
    forall k | 0 <= k < |done|
      ensures (done[k].Suspended? || done[k].Resumed?) ==> done[k].cron in SetOf(env.crons)
      ensures done[k] == Flag(false) ==> k == r + 1 + |env.crons|
      ensures done[k].Resumed? ==> k > r
    {
      assert p <= k < r ==> done[k] == Rolls(services)[k - p];
    }
  }

  /**
   Where an attempt leaves the cluster, wherever it is cut off. It leaves the in-progress flag unless it runs to a
   successful end; without a health check of 200 it leaves every listed connector suspended, once all are; at a
   successful end all listed connectors run; and connectors it does not list keep their state.
   */
  lemma AttemptLeaves(c: Cluster, services: seq<string>, env: Env, done: seq<Effect>)
    requires Forward(env.timeline) && done <= Plan(services, env)
    ensures var after := ApplyAll(c, done);
            && (|done| == 0 ==> after == c)
            && (|done| > 0 ==> (!after.inProgress <==> Succeeds(env) && done == Plan(services, env)))
            && (|done| >= 2 + |env.crons| && Health(200) !in done ==> after.suspended == c.suspended + SetOf(env.crons))
            && (Succeeds(env) && done == Plan(services, env) ==> after.suspended == c.suspended - SetOf(env.crons))
            && c.suspended - SetOf(env.crons) <= after.suspended <= c.suspended + SetOf(env.crons)
  {
    PrefixPlaced(services, env, done);
    PlacedTouchesListed(services, env, PrepareEnd(env), done);
    SuspendedBounds(c, done, SetOf(env.crons));
    if Succeeds(env) && done == Plan(services, env) {
      PlanApplied(c, services, env);
    } else if |done| > 0 {
      FlagKept(Apply(c, done[0]), done[1..]);
    }
    if |done| >= 2 + |env.crons| && Health(200) !in done {
      AllSuspended(c, services, env, PrepareEnd(env), done);
    }
  }

  lemma AllSuspended(c: Cluster, services: seq<string>, env: Env, p: nat, done: seq<Effect>)
    requires Placed(services, env, p, done) && |done| >= 2 + |env.crons|
    requires forall k :: 0 <= k < |done| ==> !done[k].Resumed?
    ensures c.suspended + SetOf(env.crons) <= ApplyAll(c, done).suspended
  {
    forall cron | cron in c.suspended + SetOf(env.crons) ensures cron in ApplyAll(c, done).suspended {
      if cron in env.crons {
        var k :| 0 <= k < |env.crons| && env.crons[k] == cron;
        assert done[k + 2] == Suspended(cron);
      }
      StaysSuspended(c, done, cron);
    }
  }

  // ---- All retries ----

  /** One call of the handler: the two versions it sees and how far the attempt gets. */
  datatype Attempt = Attempt(oldVersion: string, newVersion: string, env: Env, cut: nat)

  ghost function Done(parse: string -> Option<int>, a: Attempt): seq<Effect>
    requires Forward(a.env.timeline)
  {
    if IsNoOp(a.oldVersion, a.newVersion) then []
    else
      var plan := Plan(RollOrder(parse, a.oldVersion, a.newVersion), a.env);
      if a.cut < |plan| then plan[..a.cut] else plan
  }

  ghost function After(parse: string -> Option<int>, c: Cluster, attempts: seq<Attempt>): Cluster
    requires forall a :: a in attempts ==> Forward(a.env.timeline)
  {
    if |attempts| == 0 then c
    else ApplyAll(After(parse, c, attempts[..|attempts| - 1]), Done(parse, attempts[|attempts| - 1]))
  }

  ghost predicate Started(parse: string -> Option<int>, attempts: seq<Attempt>)
    requires forall a :: a in attempts ==> Forward(a.env.timeline)
  {
    exists a :: a in attempts && |Done(parse, a)| > 0
  }

  /**
   Retries restore what the upgrade found. When every attempt lists the same connectors, then after any number of
   attempts, each cut off anywhere: other connectors are as before, and if the flag is down although it was up before
   or some attempt has started, exactly the connectors that were not listed and were suspended before are suspended.
   */
  lemma {:induction false} RetriesRestore(
    parse: string -> Option<int>, c: Cluster, attempts: seq<Attempt>, crons: set<string>)
    requires forall a :: a in attempts ==> Forward(a.env.timeline) && SetOf(a.env.crons) == crons
    ensures var after := After(parse, c, attempts);
            && c.suspended - crons <= after.suspended <= c.suspended + crons
            && (!after.inProgress && (c.inProgress || Started(parse, attempts)) ==>
                after.suspended == c.suspended - crons)
  {
    if |attempts| == 0 {
    } else {
      var front, last := attempts[..|attempts| - 1], attempts[|attempts| - 1];
      assert last in attempts;
      RetriesRestore(parse, c, front, crons);
      var before := After(parse, c, front);
      AttemptLeaves(before, RollOrder(parse, last.oldVersion, last.newVersion), last.env, Done(parse, last));
      assert forall a :: a in attempts <==> a in front || a == last;
    }
  }

  /**
   An abandoned upgrade strands its connectors. When an attempt has failed before a health check of 200 and the
   version is then set back, so that old and new version agree from there on, no call of the handler ever resumes
   anything.
   */
  lemma {:induction false} RevertStrands(parse: string -> Option<int>, c: Cluster, failed: Attempt, later: seq<Attempt>)
    requires Forward(failed.env.timeline) && forall a :: a in later ==> Forward(a.env.timeline)
    requires |Done(parse, failed)| >= 2 + |failed.env.crons| && Health(200) !in Done(parse, failed)
    requires forall a :: a in later ==> IsNoOp(a.oldVersion, a.newVersion)
    ensures After(parse, c, [failed] + later) == Cluster(c.suspended + SetOf(failed.env.crons), true)
  {
    var all := [failed] + later;
    if |later| == 0 {
      assert all[..0] == [] && all[0] == failed;
      AttemptLeaves(c, RollOrder(parse, failed.oldVersion, failed.newVersion), failed.env, Done(parse, failed));
    } else {
      assert later[|later| - 1] in later;
      RevertStrands(parse, c, failed, later[..|later| - 1]);
      assert all[..|all| - 1] == [failed] + later[..|later| - 1];
    }
  }

  // ---- When the connectors of a failed attempt run again ----

  ghost predicate NoDuplicates(crons: seq<string>) {
    forall i, j :: 0 <= i < j < |crons| ==> crons[i] != crons[j]
  }

  /** The attempt got as far as resuming every connector it listed. */
  ghost predicate ResumesAll(parse: string -> Option<int>, a: Attempt)
    requires Forward(a.env.timeline)
  {
    Succeeds(a.env) && !IsNoOp(a.oldVersion, a.newVersion)
    && |Done(parse, a)| >= |Plan(RollOrder(parse, a.oldVersion, a.newVersion), a.env)| - 1
  }

  /** The attempt did not get as far as suspending a connector. */
  ghost predicate SuspendsNone(parse: string -> Option<int>, a: Attempt)
    requires Forward(a.env.timeline)
  {
    |Done(parse, a)| <= 2
  }

  lemma UnfinishedLeavesOne(
    c: Cluster, services: seq<string>, env: Env, p: nat, done: seq<Effect>) returns (cron: string)
    requires Placed(services, env, p, done) && NoDuplicates(env.crons) && |env.crons| > 0
    requires 2 < |done| <= p + |Rolls(services)| + |env.crons|
    ensures cron in env.crons && cron in ApplyAll(c, done).suspended
  {
    RollsAreQuiet(services);
    var r := p + |Rolls(services)|;
    var i := if |done| <= r + 1 then 0 else |env.crons| - 1;
    cron := env.crons[i];
    assert done[2 + i] == Suspended(cron);
    forall k | 0 <= k < |done| ensures done[k] != Resumed(cron) {
      assert p <= k < r ==> done[k] == Rolls(services)[k - p];
    }
    StaysSuspended(c, done, cron);
  }

  lemma ResumedAllRun(c: Cluster, services: seq<string>, env: Env, done: seq<Effect>)
    requires Forward(env.timeline) && done <= Plan(services, env) && Succeeds(env)
    requires |done| >= |Plan(services, env)| - 1
    ensures ApplyAll(c, done).suspended == c.suspended - SetOf(env.crons)
  {
    var plan := Plan(services, env);
    PlanApplied(c, services, env);
    if done != plan {
      assert plan == done + [Flag(false)];
      ApplySum(c, done, [Flag(false)]);
      assert [Flag(false)][1..] == [];
    }
  }

  /** What one attempt does to connectors that all of them run or not. */
  lemma AttemptRuns(parse: string -> Option<int>, c: Cluster, a: Attempt)
    requires Forward(a.env.timeline) && NoDuplicates(a.env.crons) && |a.env.crons| > 0
    ensures var after, crons := ApplyAll(c, Done(parse, a)), SetOf(a.env.crons);
            && (ResumesAll(parse, a) ==> after.suspended !! crons)
            && (SuspendsNone(parse, a) ==> after.suspended == c.suspended)
            && (!ResumesAll(parse, a) && !SuspendsNone(parse, a) ==> !(after.suspended !! crons))
  {
    var services := RollOrder(parse, a.oldVersion, a.newVersion);
    var done, p := Done(parse, a), PrepareEnd(a.env);
    PrefixPlaced(services, a.env, done);
    PrefixPlaced(services, a.env, Plan(services, a.env));
    if ResumesAll(parse, a) {
      ResumedAllRun(c, services, a.env, done);
    } else if !SuspendsNone(parse, a) {
      var cron := UnfinishedLeavesOne(c, services, a.env, p, done);
      assert cron in SetOf(a.env.crons);
    }
    if SuspendsNone(parse, a) {
      SuspendedBounds(c, done, {});
    }
  }

  /** Some attempt resumed all of them, and no attempt since got as far as suspending one. */
  ghost predicate ResumedSince(parse: string -> Option<int>, attempts: seq<Attempt>)
    requires forall a :: a in attempts ==> Forward(a.env.timeline)
  {
    exists k: nat :: ResumedAt(parse, attempts, k)
  }

  ghost predicate ResumedAt(parse: string -> Option<int>, attempts: seq<Attempt>, k: nat)
    requires forall a :: a in attempts ==> Forward(a.env.timeline)
  {
    k < |attempts| && ResumesAll(parse, attempts[k]) && forall j :: k < j < |attempts| ==>
        SuspendsNone(parse, attempts[j])
  }

  lemma ResumedAtLonger(parse: string -> Option<int>, front: seq<Attempt>, last: Attempt, k: nat)
    requires Forward(last.env.timeline) && forall a :: a in front ==> Forward(a.env.timeline)
    ensures k < |front| ==>
        (ResumedAt(parse, front + [last], k) <==> ResumedAt(parse, front, k) && SuspendsNone(parse, last))
    ensures ResumedAt(parse, front + [last], |front|) <==> ResumesAll(parse, last)
    ensures k > |front| ==> !ResumedAt(parse, front + [last], k)
  {
    var all := front + [last];
    assert all[|front|] == last && forall j :: 0 <= j < |front| ==> all[j] == front[j];
  }

  lemma ResumedSinceStep(parse: string -> Option<int>, front: seq<Attempt>, last: Attempt)
    requires Forward(last.env.timeline) && forall a :: a in front ==> Forward(a.env.timeline)
    ensures ResumedSince(parse, front + [last]) <==>
            ResumesAll(parse, last) || (SuspendsNone(parse, last) && ResumedSince(parse, front))
  {
    if k: nat :| ResumedAt(parse, front, k) {
      ResumedAtLonger(parse, front, last, k);
    }
    if k: nat :| ResumedAt(parse, front + [last], k) {
      ResumedAtLonger(parse, front, last, k);
    }
    ResumedAtLonger(parse, front, last, 0);
  }

  /**
   When connectors run again. After an attempt that failed before a health check of 200, and any later attempts that
   list the same connectors, each cut off anywhere, all of them run if and only if some later attempt resumed all of
   them and none since got as far as suspending one.
   */
  lemma {:induction false} RunAgainIff(parse: string -> Option<int>, c: Cluster, failed: Attempt, later: seq<Attempt>)
    requires Forward(failed.env.timeline) && forall a :: a in later ==> Forward(a.env.timeline)
    requires |Done(parse, failed)| >= 2 + |failed.env.crons| && Health(200) !in Done(parse, failed)
    requires |failed.env.crons| > 0
    requires forall a :: a in later ==> NoDuplicates(a.env.crons) && SetOf(a.env.crons) == SetOf(failed.env.crons)
    ensures After(parse, c, [failed] + later).suspended !! SetOf(failed.env.crons) <==> ResumedSince(parse, later)
  {
    var all, crons := [failed] + later, SetOf(failed.env.crons);
    if |later| == 0 {
      assert all[..0] == [] && all[0] == failed && failed.env.crons[0] in crons;
      AttemptLeaves(c, RollOrder(parse, failed.oldVersion, failed.newVersion), failed.env, Done(parse, failed));
    } else {
      var front, last := later[..|later| - 1], later[|later| - 1];
      assert last in later && later == front + [last];
      RunAgainIff(parse, c, failed, front);
      assert all[..|all| - 1] == [failed] + front && all[|all| - 1] == last;
      assert failed.env.crons[0] in SetOf(last.env.crons);
      AttemptRuns(parse, After(parse, c, [failed] + front), last);
      ResumedSinceStep(parse, front, last);
    }
  }

  // ---- The order of the restarts ----

  function RestartOrder(es: seq<Effect>): seq<string> {
    if |es| == 0 then [] else (if es[0].Restarted? then [es[0].service] else []) + RestartOrder(es[1..])
  }

  lemma {:induction false} RestartOrderSum(a: seq<Effect>, b: seq<Effect>)
    ensures RestartOrder(a + b) == RestartOrder(a) + RestartOrder(b)
  {
    if |a| == 0 {
      assert a + b == b;
    } else {
      assert (a + b)[1..] == a[1..] + b;
      RestartOrderSum(a[1..], b);
    }
  }

  lemma {:induction false} NoRestarts(es: seq<Effect>)
    requires forall i :: 0 <= i < |es| ==> !es[i].Restarted?
    ensures RestartOrder(es) == []
  {
    if |es| == 0 {
    } else {
      assert !es[0].Restarted?;
      NoRestarts(es[1..]);
    }
  }

  lemma {:induction false} RollsInOrder(services: seq<string>)
    ensures RestartOrder(Rolls(services)) == services
  {
    if |services| == 0 {
    } else {
      var rolls := Rolls(services);
      assert rolls[1..][0] == BecameReady(services[0]) && rolls[1..][1..] == Rolls(services[1..]);
      RollsInOrder(services[1..]);
      assert RestartOrder(rolls) == [services[0]] + RestartOrder(rolls[1..]);
      assert RestartOrder(rolls[1..]) == [] + RestartOrder(rolls[1..][1..]);
    }
  }

  lemma PlanRestarts(services: seq<string>, env: Env)
    requires Forward(env.timeline)
    ensures RestartOrder(Plan(services, env)) == if DrainOf(env).ok then services else []
  {
    NoRestarts(Prepare(env));
    RollsInOrder(services);
    var rolled := Rolls(services) + [Health(env.health)];
    var finish := Resumes(env.crons) + [Flag(false)];
    NoRestarts([Health(env.health)]);
    RestartOrderSum(Rolls(services), [Health(env.health)]);
    RestartOrderSum(Prepare(env), rolled);
    NoRestarts(finish);
    RestartOrderSum(Prepare(env) + rolled, finish);
  }

  /**
   An attempt restarts the services of its order, each at most once, from the first on; a rollback from the last on.
   */
  lemma RestartsFollowOrder(services: seq<string>, env: Env, done: seq<Effect>)
    requires Forward(env.timeline) && done <= Plan(services, env)
    ensures RestartOrder(done) <= services
    ensures done == Plan(services, env) && DrainOf(env).ok ==> RestartOrder(done) == services
  {
    var plan := Plan(services, env);
    PlanRestarts(services, env);
    assert plan == done + plan[|done|..];
    RestartOrderSum(done, plan[|done|..]);
  }
}
