/**
 `record_usage` under interleaving: EXISTS, SETEX and INCRBY are separate commands, so calls for one event can get
 between each other's steps. A call may also die at any point, before or after a command took effect, and a marker may
 expire.
 */
module UsageProtocol {
  import opened Identity
  import QuotaService

  type Keyspace = QuotaService.Keyspace

  datatype Usage = Usage(tenant: string, metric: string, amount: int, eventId: string)

  /** Absent: EXISTS found no marker. Credited: INCRBY took effect, answered or not. */
  datatype Phase = Idle | Absent | Marked | Credited | Deduped | Dead

  datatype Call = Call(usage: Usage, phase: Phase)

  datatype State = State(redis: Keyspace, calls: seq<Call>)

  datatype Label =
    | Arrive(usage: Usage)
    | Exists(i: nat)
    | Setex(i: nat, answered: bool)   // an error after the marker was written ends the call
    | Incr(i: nat)
    | Die(i: nat)                     // an error or a crash before the next command takes effect
    | ExpireMarker(eventId: string)

  const INIT := State(map[], [])

  ghost predicate Enabled(s: State, l: Label) {
    match l
    case Arrive(_) => true
    case Exists(i) => i < |s.calls| && s.calls[i].phase == Idle
    case Setex(i, _) => i < |s.calls| && s.calls[i].phase == Absent
    case Incr(i) => i < |s.calls| && s.calls[i].phase == Marked
    case Die(i) => i < |s.calls| && s.calls[i].phase in {Idle, Absent, Marked}
    case ExpireMarker(_) => true
  }

  function Move(s: State, i: nat, phase: Phase): State
    requires i < |s.calls|
  {
    s.(calls := s.calls[i := s.calls[i].(phase := phase)])
  }

  function KeyOf(u: Usage): string {
    QuotaKey(u.tenant, u.metric)
  }

  ghost function Next(s: State, l: Label): State
    requires Enabled(s, l)
  {
    match l
    case Arrive(u) => s.(calls := s.calls + [Call(u, Idle)])
    case Exists(i) => Move(s, i, if DedupKey(s.calls[i].usage.eventId) in s.redis then Deduped else Absent)
    case Setex(i, answered) =>
      Move(s, i, if answered then Marked else Dead).(redis := s.redis[DedupKey(s.calls[i].usage.eventId) := 1])
    case Incr(i) =>
      var u := s.calls[i].usage;
      Move(s, i, Credited).(redis := QuotaService.Add(s.redis, KeyOf(u), u.amount))
    case Die(i) => Move(s, i, Dead)
    case ExpireMarker(id) => s.(redis := s.redis - {DedupKey(id)})
  }

  /** A sequence of steps from any state. */
  ghost predicate IsPath(states: seq<State>, labels: seq<Label>) {
    && |states| == |labels| + 1
    && forall k :: 0 <= k < |labels| ==> Enabled(states[k], labels[k]) && states[k + 1] == Next(states[k], labels[k])
  }

  ghost predicate IsRun(states: seq<State>, labels: seq<Label>) {
    IsPath(states, labels) && states[0] == INIT
  }

  // ---- One call alone ----

  /**
   Uninterrupted, the steps of a call are one step of `RecordUsage`, whether or not it dies between SETEX and INCRBY.
   */
  lemma SoloIsRecord(s: State, u: Usage, crash: bool)
    ensures var i := |s.calls|;
            var s1 := Next(Next(s, Arrive(u)), Exists(i));
            var s2 := if s1.calls[i].phase == Deduped then s1
                      else if crash then Next(Next(s1, Setex(i, true)), Die(i))
                      else Next(Next(s1, Setex(i, true)), Incr(i));
            s2.redis == QuotaService.Record(s.redis, QuotaService.Call(u.tenant, u.metric, u.amount, u.eventId, crash))
  {
    DedupKeyIsNoQuotaKey(u.eventId, u.tenant, u.metric);
  }

  // ---- The counters ----

  /** What the credited calls on a key add up to. */
  function CreditedOn(calls: seq<Call>, key: string): int {
    if |calls| == 0 then 0
    else
      var c := calls[|calls| - 1];
      CreditedOn(calls[..|calls| - 1], key) + if c.phase == Credited && KeyOf(c.usage) == key then c.usage.amount else 0
  }

  function Credit(c: Call, key: string): int {
    if c.phase == Credited && KeyOf(c.usage) == key then c.usage.amount else 0
  }

  lemma {:induction false} CreditedUpdate(calls: seq<Call>, i: nat, c: Call, key: string)
    requires i < |calls|
    ensures CreditedOn(calls[i := c], key) == CreditedOn(calls, key) - Credit(calls[i], key) + Credit(c, key)
  {
    var n := |calls| - 1;
    if i == n {
      assert calls[i := c][..n] == calls[..n];
    } else {
      CreditedUpdate(calls[..n], i, c, key);
      assert calls[i := c][..n] == calls[..n][i := c];
    }
  }

  lemma NextKeepsCredit(s: State, l: Label, tenant: string, metric: string)
    requires Enabled(s, l)
    requires var key := QuotaKey(tenant, metric); QuotaService.Value(s.redis, key) == CreditedOn(s.calls, key)
    ensures var key := QuotaKey(tenant, metric);
            QuotaService.Value(Next(s, l).redis, key) == CreditedOn(Next(s, l).calls, key)
  {
    var t, key := Next(s, l), QuotaKey(tenant, metric);
    match l {
      case Arrive(_) => assert t.calls[..|t.calls| - 1] == s.calls;
      case ExpireMarker(id) => DedupKeyIsNoQuotaKey(id, tenant, metric);
      case _ =>
        DedupKeyIsNoQuotaKey(s.calls[l.i].usage.eventId, tenant, metric);
        CreditedUpdate(s.calls, l.i, t.calls[l.i], key);
        assert t.calls == s.calls[l.i := t.calls[l.i]];
    }
  }

  /**
   Conservation under interleaving. In every state of every run, marker expiries included, each counter is the sum of
   the amounts of the calls on its key that found no marker and reached INCRBY.
   */
  lemma {:induction false} CountersAreCredits(
    states: seq<State>, labels: seq<Label>, n: nat, tenant: string, metric: string)
    requires IsRun(states, labels) && n < |states|
    ensures QuotaService.Value(states[n].redis, QuotaKey(tenant, metric))
            == CreditedOn(states[n].calls, QuotaKey(tenant, metric))
  {
    if n == 0 {
    } else {
      CountersAreCredits(states, labels, n - 1, tenant, metric);
      NextKeepsCredit(states[n - 1], labels[n - 1], tenant, metric);
    }
  }

  // ---- Credited at most once ----

  ghost predicate IsOf(s: State, i: nat, id: string) {
    i < |s.calls| && s.calls[i].usage.eventId == id
  }

  /** The call has got past EXISTS and has not died before its INCRBY. */
  ghost predicate InPlay(s: State, i: nat, id: string) {
    IsOf(s, i, id) && s.calls[i].phase in {Absent, Marked, Credited}
  }

  ghost predicate IsCredited(s: State, i: nat, id: string) {
    IsOf(s, i, id) && s.calls[i].phase == Credited
  }

  ghost predicate CreditedOnce(s: State, id: string) {
    forall i, j :: IsCredited(s, i, id) && IsCredited(s, j, id) ==> i == j
  }

  ghost predicate OneInPlay(s: State, id: string) {
    forall i, j :: InPlay(s, i, id) && InPlay(s, j, id) ==> i == j
  }

  /** Step k lets a call of the event past EXISTS. */
  ghost predicate Passes(states: seq<State>, labels: seq<Label>, k: nat, i: nat, id: string) {
    k < |labels| && k < |states| && labels[k] == Exists(i) && IsOf(states[k], i, id) && DedupKey(id) !in states[k].redis
  }

  ghost predicate NobodyPasses(states: seq<State>, labels: seq<Label>, id: string) {
    forall k, i :: !Passes(states, labels, k, i, id)
  }

  /** The event is credited at most once in every continuation in which no further call of it gets past EXISTS. */
  ghost predicate OnceForGood(s: State, id: string) {
    forall states, labels ::
      IsPath(states, labels) && states[0] == s && NobodyPasses(states, labels, id) ==>
        CreditedOnce(states[|labels|], id)
  }

  lemma NextKeepsInPlay(s: State, l: Label, i: nat, id: string)
    requires Enabled(s, l) && InPlay(Next(s, l), i, id)
    ensures InPlay(s, i, id) || (l == Exists(i) && IsOf(s, i, id) && DedupKey(id) !in s.redis)
  {}

  lemma {:induction false} PathKeepsOneInPlay(states: seq<State>, labels: seq<Label>, n: nat, id: string)
    requires IsPath(states, labels) && NobodyPasses(states, labels, id) && n < |states| && OneInPlay(states[0], id)
    ensures OneInPlay(states[n], id)
  {
    if n == 0 {
    } else {
      PathKeepsOneInPlay(states, labels, n - 1, id);
      forall i | InPlay(states[n], i, id) ensures InPlay(states[n - 1], i, id) {
        NextKeepsInPlay(states[n - 1], labels[n - 1], i, id);
        assert !Passes(states, labels, n - 1, i, id);
      }
    }
  }

  /** The rest of a call that is past EXISTS, with nobody in between. */
  function Rest(s: State, i: nat): seq<Label>
    requires i < |s.calls|
  {
    match s.calls[i].phase
    case Absent => [Setex(i, true), Incr(i)]
    case Marked => [Incr(i)]
    case _ => []
  }

  ghost function PathOf(s: State, labels: seq<Label>): (states: seq<State>)
    requires CanDo(s, labels)
    ensures IsPath(states, labels) && states[0] == s
    decreases |labels|
  {
    if |labels| == 0 then [s] else [s] + PathOf(Next(s, labels[0]), labels[1..])
  }

  ghost predicate CanDo(s: State, labels: seq<Label>)
    decreases |labels|
  {
    |labels| > 0 ==> Enabled(s, labels[0]) && CanDo(Next(s, labels[0]), labels[1..])
  }

  ghost function Last(s: State, labels: seq<Label>): State
    requires CanDo(s, labels)
    decreases |labels|
  {
    if |labels| == 0 then s else Last(Next(s, labels[0]), labels[1..])
  }

  lemma {:induction false} PathEndsInLast(s: State, labels: seq<Label>)
    requires CanDo(s, labels)
    ensures PathOf(s, labels)[|labels|] == Last(s, labels)
    decreases |labels|
  {
    if |labels| == 0 {
    } else {
      PathEndsInLast(Next(s, labels[0]), labels[1..]);
    }
  }

  lemma {:induction false} DoBoth(s: State, a: seq<Label>, b: seq<Label>)
    requires CanDo(s, a) && CanDo(Last(s, a), b)
    ensures CanDo(s, a + b) && Last(s, a + b) == Last(Last(s, a), b)
    decreases |a|
  {
    if |a| == 0 {
      assert a + b == b;
    } else {
      assert (a + b)[1..] == a[1..] + b;
      DoBoth(Next(s, a[0]), a[1..], b);
    }
  }

  lemma RestCredits(s: State, i: nat, id: string)
    requires InPlay(s, i, id)
    ensures CanDo(s, Rest(s, i)) && IsCredited(Last(s, Rest(s, i)), i, id)
    ensures var t := Last(s, Rest(s, i));
            |t.calls| == |s.calls| && forall j: nat :: j != i && j < |s.calls| ==> t.calls[j] == s.calls[j]
  {
    var r := Rest(s, i);
    if s.calls[i].phase == Absent {
      var t := Next(s, r[0]);
      assert r[1..] == [Incr(i)] && r[1..][1..] == [];
      assert Last(s, r) == Last(t, r[1..]) == Next(t, Incr(i));
    } else if s.calls[i].phase == Marked {
      assert r[1..] == [];
      assert Last(s, r) == Next(s, Incr(i));
    }
  }

  lemma BothCredit(s: State, i: nat, j: nat, id: string) returns (labels: seq<Label>)
    requires InPlay(s, i, id) && InPlay(s, j, id) && i != j
    ensures CanDo(s, labels) && forall k :: 0 <= k < |labels| ==> !labels[k].Exists?
    ensures IsCredited(Last(s, labels), i, id) && IsCredited(Last(s, labels), j, id)
  {
    RestCredits(s, i, id);
    var t := Last(s, Rest(s, i));
    assert t.calls[j] == s.calls[j];
    RestCredits(t, j, id);
    labels := Rest(s, i) + Rest(t, j);
    DoBoth(s, Rest(s, i), Rest(t, j));
  }

  lemma TwoInPlayCreditTwice(s: State, i: nat, j: nat, id: string)
    requires InPlay(s, i, id) && InPlay(s, j, id) && i != j
    ensures !OnceForGood(s, id)
  {
    var labels := BothCredit(s, i, j, id);
    PathEndsInLast(s, labels);
    var states := PathOf(s, labels);
    assert NobodyPasses(states, labels, id);
    assert !CreditedOnce(states[|labels|], id);
  }

  lemma OnceForGoodIff(s: State, id: string)
    ensures OnceForGood(s, id) <==> OneInPlay(s, id)
  {
    if OneInPlay(s, id) {
      forall states, labels | IsPath(states, labels) && states[0] == s && NobodyPasses(states, labels, id)
        ensures CreditedOnce(states[|labels|], id)
      {
        PathKeepsOneInPlay(states, labels, |labels|, id);
        var last := states[|labels|];
        assert forall i :: IsCredited(last, i, id) ==> InPlay(last, i, id);
      }
    } else {
      var i, j :| InPlay(s, i, id) && InPlay(s, j, id) && i != j;
      TwoInPlayCreditTwice(s, i, j, id);
    }
  }

  // ---- Overlap ----

  /** Both calls got past EXISTS before either wrote the marker. */
  ghost predicate Overlap(states: seq<State>, labels: seq<Label>, i: nat, j: nat, id: string) {
    exists k: nat, m: nat ::
      && Passes(states, labels, k, i, id) && Passes(states, labels, m, j, id)
      && BeforeSetex(labels, k, m, i, j)
  }

  ghost predicate BeforeSetex(labels: seq<Label>, k: nat, m: nat, i: nat, j: nat)
    requires k < |labels| && m < |labels|
  {
    forall q :: 0 <= q < k || 0 <= q < m ==> !(labels[q].Setex? && (labels[q].i == i || labels[q].i == j))
  }

  /** When a call got past EXISTS, and that its SETEX comes later. */
  lemma {:induction false} PassedAt(states: seq<State>, labels: seq<Label>, n: nat, i: nat, id: string) returns (k: nat)
    requires IsRun(states, labels) && n < |states| && InPlay(states[n], i, id)
    ensures k < n && Passes(states, labels, k, i, id)
    ensures forall q :: 0 <= q < k ==> labels[q] != Setex(i, true) && labels[q] != Setex(i, false)
  {
    assert n > 0;
    NextKeepsInPlay(states[n - 1], labels[n - 1], i, id);
    if InPlay(states[n - 1], i, id) {
      k := PassedAt(states, labels, n - 1, i, id);
    } else {
      k := n - 1;
      assert states[k].calls[i].phase == Idle;
      forall q | 0 <= q < k ensures labels[q] != Setex(i, true) && labels[q] != Setex(i, false) {
        IdleBefore(states, labels, q, k, i);
      }
    }
  }

  lemma {:induction false} IdleBefore(states: seq<State>, labels: seq<Label>, q: nat, k: nat, i: nat)
    requires IsPath(states, labels) && q <= k < |states| && i < |states[k].calls| && states[k].calls[i].phase == Idle
    ensures i < |states[q].calls| ==> states[q].calls[i].phase == Idle
    decreases k
  {
    if q == k {
    } else if i < |states[k - 1].calls| {
      IdleBefore(states, labels, q, k - 1, i);
    } else {
      CallsOnlyGrow(states, labels, q, k - 1);
    }
  }

  lemma {:induction false} CallsOnlyGrow(states: seq<State>, labels: seq<Label>, q: nat, k: nat)
    requires IsPath(states, labels) && q <= k < |states|
    ensures |states[q].calls| <= |states[k].calls|
    ensures forall i :: 0 <= i < |states[q].calls| ==> states[k].calls[i].usage == states[q].calls[i].usage
    decreases k
  {
    if q == k {
    } else {
      CallsOnlyGrow(states, labels, q, k - 1);
    }
  }

  lemma MarkersDiffer(a: string, b: string)
    requires a != b
    ensures DedupKey(a) != DedupKey(b)
  {
    if DedupKey(a) == DedupKey(b) {
      DedupKeyInjective(a, b);
    }
  }

  /** A marker stays until it expires. */
  lemma {:induction false} MarkerStays(states: seq<State>, labels: seq<Label>, q: nat, k: nat, id: string)
    requires IsPath(states, labels) && q <= k < |states| && ExpireMarker(id) !in labels
    requires DedupKey(id) in states[q].redis
    ensures DedupKey(id) in states[k].redis
    decreases k
  {
    if q == k {
    } else {
      MarkerStays(states, labels, q, k - 1, id);
      if labels[k - 1].ExpireMarker? {
        assert labels[k - 1] in labels;
        MarkersDiffer(labels[k - 1].eventId, id);
      }
    }
  }

  /** While a marker lives, a call of the event past EXISTS has written none if another one gets past EXISTS later. */
  lemma NoSetexBefore(states: seq<State>, labels: seq<Label>, q: nat, m: nat, i: nat, j: nat, id: string)
    requires IsRun(states, labels) && ExpireMarker(id) !in labels && q < m < |labels|
    requires Passes(states, labels, m, j, id) && i < |states[|labels|].calls| && IsOf(states[|labels|], i, id)
    ensures !(labels[q].Setex? && labels[q].i == i)
  {
    if labels[q].Setex? && labels[q].i == i {
      CallsOnlyGrow(states, labels, q, |labels|);
      assert DedupKey(id) in states[q + 1].redis;
      MarkerStays(states, labels, q + 1, m, id);
    }
  }

  lemma InPlayMeansOverlap(states: seq<State>, labels: seq<Label>, i: nat, j: nat, id: string)
    requires IsRun(states, labels) && ExpireMarker(id) !in labels && i != j
    requires InPlay(states[|labels|], i, id) && InPlay(states[|labels|], j, id)
    ensures Overlap(states, labels, i, j, id)
  {
    var k := PassedAt(states, labels, |labels|, i, id);
    var m := PassedAt(states, labels, |labels|, j, id);
    forall q | 0 <= q < k || 0 <= q < m
      ensures !(labels[q].Setex? && (labels[q].i == i || labels[q].i == j))
    {
      if q < m {
        NoSetexBefore(states, labels, q, m, i, j, id);
        NoSetexBefore(states, labels, q, m, j, j, id);
      } else {
        NoSetexBefore(states, labels, q, k, i, i, id);
        NoSetexBefore(states, labels, q, k, j, i, id);
      }
    }
    assert BeforeSetex(labels, k, m, i, j);
  }

  /**
   When dedup holds. After any run in which the event's marker does not expire, the event is credited at most once,
   whatever the calls in flight do from there on, if and only if no two of its calls that have not died before their
   INCRBY both got past EXISTS before either's SETEX.
   */
  lemma CreditedOnceIff(states: seq<State>, labels: seq<Label>, id: string)
    requires IsRun(states, labels) && ExpireMarker(id) !in labels
    ensures OnceForGood(states[|labels|], id) <==>
            !exists i: nat, j: nat ::
              && i != j && InPlay(states[|labels|], i, id) && InPlay(states[|labels|], j, id)
              && Overlap(states, labels, i, j, id)
  {
    var s := states[|labels|];
    OnceForGoodIff(s, id);
    if i: nat, j: nat :| InPlay(s, i, id) && InPlay(s, j, id) && i != j {
      InPlayMeansOverlap(states, labels, i, j, id);
    }
  }

  // ---- The failing input ----

  function OverlapLabels(u: Usage): seq<Label> {
    [Arrive(u), Arrive(u), Exists(0), Exists(1), Setex(0, true), Setex(1, true), Incr(0), Incr(1)]
  }

  function OverlapStates(u: Usage): seq<State> {
    var marker := map[DedupKey(u.eventId) := 1];
    [ INIT,
      State(map[], [Call(u, Idle)]),
      State(map[], [Call(u, Idle), Call(u, Idle)]),
      State(map[], [Call(u, Absent), Call(u, Idle)]),
      State(map[], [Call(u, Absent), Call(u, Absent)]),
      State(marker, [Call(u, Marked), Call(u, Absent)]),
      State(marker, [Call(u, Marked), Call(u, Marked)]),
      State(marker[KeyOf(u) := u.amount], [Call(u, Credited), Call(u, Marked)]),
      State(marker[KeyOf(u) := u.amount + u.amount], [Call(u, Credited), Call(u, Credited)])]
  }

  ghost predicate StepAt(states: seq<State>, labels: seq<Label>, k: nat)
    requires k < |labels| && k + 1 < |states|
  {
    Enabled(states[k], labels[k]) && states[k + 1] == Next(states[k], labels[k])
  }

  lemma OverlapReads(u: Usage)
    ensures var states, labels := OverlapStates(u), OverlapLabels(u);
            StepAt(states, labels, 0) && StepAt(states, labels, 1) && StepAt(states, labels, 2)
                && StepAt(states, labels, 3)
  {}

  lemma OverlapWrites(u: Usage)
    ensures var states, labels := OverlapStates(u), OverlapLabels(u);
            StepAt(states, labels, 4) && StepAt(states, labels, 5) && StepAt(states, labels, 6)
                && StepAt(states, labels, 7)
  {
    DedupKeyIsNoQuotaKey(u.eventId, u.tenant, u.metric);
    var marker: Keyspace := map[DedupKey(u.eventId) := 1];
    assert marker[DedupKey(u.eventId) := 1] == marker;
  }

  /** Two calls for one event, both past EXISTS before either's SETEX, are both added to the counter. */
  lemma OverlapCountsTwice(u: Usage) returns (states: seq<State>, labels: seq<Label>)
    ensures IsRun(states, labels) && ExpireMarker(u.eventId) !in labels
    ensures Overlap(states, labels, 0, 1, u.eventId)
    ensures QuotaService.Value(states[|labels|].redis, KeyOf(u)) == u.amount + u.amount
  {
    states, labels := OverlapStates(u), OverlapLabels(u);
    OverlapReads(u);
    OverlapWrites(u);
    forall k | 0 <= k < |labels| ensures StepAt(states, labels, k) {}
    assert Passes(states, labels, 2, 0, u.eventId) && Passes(states, labels, 3, 1, u.eventId);
    assert BeforeSetex(labels, 2, 3, 0, 1);
  }
}
