/**
 The doc-processor as a state machine over a fixed raw topic. One step starts a message,
 makes one effect of its plan durable, finishes it, or crashes and goes back to the
 committed offsets. `commit(message=m)` sets a per-partition mark at m.offset + 1, so a commit also
 covers every earlier message of the partition, committed or not.
 */
module DocProcessorRuns {
  import opened Events
  import opened Options
  import opened DocProcessor

  type RawLog = map<nat, seq<RawMessage>>

  function Records(raw: RawLog, partition: nat): seq<RawMessage> {
    if partition in raw then raw[partition] else []
  }

  ghost predicate InLog(raw: RawLog, at: Place) {
    at.offset < |Records(raw, at.partition)|
  }

  function MessageAt(raw: RawLog, at: Place): RawMessage
    requires InLog(raw, at)
  {
    Records(raw, at.partition)[at.offset]
  }

  /** The message in hand, its plan, and how many of its effects are durable. */
  datatype Job = Job(place: Place, plan: seq<Effect>, done: nat)

  datatype State = State(
    position: map<nat, nat>,
    topics: Topics,                 // chunk topic, DLQ and committed offsets
    dropped: set<Place>,            // messages whose DLQ write was lost
    job: Option<Job>)

  datatype Label = Start(partition: nat, env: Env) | Perform | Finish | Crash

  const INIT := State(map[], Topics([], [], map[]), {}, None)

  ghost predicate Enabled(cfg: Config, raw: RawLog, s: State, l: Label)
  {
    match l
    case Start(p, _) => s.job.None? && At(s.position, p) < |Records(raw, p)|
    case Perform => s.job.Some? && s.job.value.done < |s.job.value.plan|
    case Finish => s.job.Some? && s.job.value.done == |s.job.value.plan|
    case Crash => true
  }

  ghost function Durable(s: State, e: Effect): State {
    s.(topics := Apply(s.topics, e), dropped := if e.DlqDropped? then s.dropped + {e.place} else s.dropped)
  }

  ghost predicate InDlq(s: State, at: Place) {
    exists reason :: (at, reason) in s.topics.dlq
  }

  ghost function Next(cfg: Config, raw: RawLog, s: State, l: Label): State
    requires Enabled(cfg, raw, s, l)
  {
    match l
    case Start(p, env) =>
      var o := At(s.position, p);
      s.(position := s.position[p := o + 1],
          job := Some(Job(Place(p, o), Plan(cfg, Records(raw, p)[o], Place(p, o), env), 0)))
    case Perform =>
      var job := s.job.value;
      Durable(s, job.plan[job.done]).(job := Some(job.(done := job.done + 1)))
    case Finish => s.(job := None)
    case Crash => s.(position := s.topics.committed, job := None)
  }

  // ---- What it means for a raw message to be dealt with ----

  ghost predicate FullyPublished(cfg: Config, e: RawEvent, out: seq<ChunkEvent>)
  {
    && cfg.parse(e).Text?
    && forall i :: 0 <= i < |ChunkEvents(cfg, e, 0)| ==> Emits(out, ChunkEvents(cfg, e, 0)[i])
  }

  /** The chunk is on the topic, under some time stamp. */
  ghost predicate Emits(out: seq<ChunkEvent>, c: ChunkEvent) {
    exists k :: 0 <= k < |out| && SameChunk(out[k], c)
  }

  /** Undecodable, in the DLQ, or all its chunks (possibly none) are on the chunk topic. */
  ghost predicate Accounted(cfg: Config, raw: RawLog, s: State, at: Place)
    requires InLog(raw, at)
  {
    match MessageAt(raw, at)
    case RawGarbage => true
    case Raw(e) => InDlq(s, at) || FullyPublished(cfg, e, s.topics.out)
  }

  ghost predicate AccountedOrDropped(cfg: Config, raw: RawLog, s: State, at: Place)
  {
    InLog(raw, at) && (at in s.dropped || Accounted(cfg, raw, s, at))
  }

  /** The chunk is one of the chunks of a raw event in the log. */
  ghost predicate Genuine(cfg: Config, raw: RawLog, c: ChunkEvent)
  {
    exists at, i :: ChunkOfMessage(cfg, raw, at, i, c)
  }

  ghost predicate ChunkOfMessage(cfg: Config, raw: RawLog, at: Place, i: nat, c: ChunkEvent)
  {
    && InLog(raw, at) && MessageAt(raw, at).Raw?
    && var e := MessageAt(raw, at).event;
       i < |ChunkEvents(cfg, e, 0)| && SameChunk(c, ChunkEvents(cfg, e, 0)[i])
  }

  // ---- What a plan guarantees, effect by effect ----

  /** The first k effects deal with the message or drop it. */
  ghost predicate PlanAccounts(cfg: Config, msg: RawMessage, at: Place, p: seq<Effect>, k: nat)
    requires k <= |p|
  {
    match msg
    case RawGarbage => true
    case Raw(e) =>
      || (exists j :: 0 <= j < k && (p[j].Dlq? || p[j].DlqDropped?) && p[j].place == at)
      || (&& cfg.parse(e).Text?
          && forall i :: 0 <= i < |ChunkEvents(cfg, e, 0)| ==> PublishedBy(p, k, ChunkEvents(cfg, e, 0)[i]))
  }

  ghost predicate PublishedBy(p: seq<Effect>, k: nat, c: ChunkEvent)
    requires k <= |p|
  {
    exists j :: 0 <= j < k && p[j].Publish? && SameChunk(p[j].chunk, c)
  }

  lemma {:induction false} PublishesAll(es: seq<ChunkEvent>, all: bool, delivered: set<nat>, i: nat, k: nat)
    requires i <= k < |es|
    requires all || k in delivered
    ensures Publish(es[k]) in Publishes(es, all, delivered, i)
    decreases |es| - i
  {
    if i < k {
      PublishesAll(es, all, delivered, i + 1, k);
    }
  }

  lemma {:induction false} PublishesOnly(es: seq<ChunkEvent>, all: bool, delivered: set<nat>, i: nat, e: Effect)
    requires i <= |es|
    requires e in Publishes(es, all, delivered, i)
    ensures e.Publish? && exists k :: i <= k < |es| && (all || k in delivered) && e.chunk == es[k]
    decreases |es| - i
  {
    if i < |es| {
      if !((all || i in delivered) && e == Publish(es[i])) {
        PublishesOnly(es, all, delivered, i + 1, e);
      }
    }
  }

  /**
   The commit is the last effect of a plan and belongs to the message itself, and by then the
   message has been dealt with or dropped; a plan that ends without a commit has also dealt
   with its message or dropped it.
   */
  lemma PlanCommitsLast(cfg: Config, msg: RawMessage, at: Place, env: Env, k: nat)
    requires k <= |Plan(cfg, msg, at, env)|
    ensures var p := Plan(cfg, msg, at, env);
            && (k < |p| && p[k].Commit? ==> p[k].place == at && k == |p| - 1 && PlanAccounts(cfg, msg, at, p, k))
            && (k == |p| ==> PlanAccounts(cfg, msg, at, p, k))
  {
    var p := Plan(cfg, msg, at, env);
    if msg.Raw? && env.fetchOk && cfg.parse(msg.event).Text? {
      var es := ChunkEvents(cfg, msg.event, env.stamp);
      if |es| > 0 {
        PublishPlan(cfg, msg, at, env, k);
      }
    } else if msg.Raw? && |p| >= 1 {
      assert p[0].Dlq? || p[0].DlqDropped?;
    }
  }

  lemma PublishPlan(cfg: Config, msg: RawMessage, at: Place, env: Env, k: nat)
    requires msg.Raw? && env.fetchOk && cfg.parse(msg.event).Text?
    requires |ChunkEvents(cfg, msg.event, env.stamp)| > 0
    requires k <= |Plan(cfg, msg, at, env)|
    ensures var p := Plan(cfg, msg, at, env);
            && (k < |p| && p[k].Commit? ==> p[k].place == at && k == |p| - 1 && PlanAccounts(cfg, msg, at, p, k))
            && (k == |p| ==> PlanAccounts(cfg, msg, at, p, k))
  {
    var p := Plan(cfg, msg, at, env);
    var es := ChunkEvents(cfg, msg.event, env.stamp);
    var published := PublishSucceeds(env, |es|);
    var pub := Publishes(es, published, env.delivered, 0);
    assert |p| == |pub| + 1 && p[..|pub|] == pub;
    if k >= |pub| {
      if published {
        forall i | 0 <= i < |ChunkEvents(cfg, msg.event, 0)|
          ensures PublishedBy(p, k, ChunkEvents(cfg, msg.event, 0)[i])
        {
          PublishesAll(es, published, env.delivered, 0, i);
          var j :| 0 <= j < |pub| && pub[j] == Publish(es[i]);
          assert p[j] == pub[j] && SameChunk(p[j].chunk, ChunkEvents(cfg, msg.event, 0)[i]);
        }
      } else if k == |p| {
        assert (p[|pub|].Dlq? || p[|pub|].DlqDropped?) && p[|pub|].place == at;
      }
    } else {
      assert p[k] == pub[k];
    }
  }

  /** A chunk a plan publishes is a chunk of its message. */
  lemma PlanPublishesOwn(cfg: Config, raw: RawLog, at: Place, env: Env, j: nat)
    requires InLog(raw, at)
    requires j < |Plan(cfg, MessageAt(raw, at), at, env)|
    requires Plan(cfg, MessageAt(raw, at), at, env)[j].Publish?
    ensures Genuine(cfg, raw, Plan(cfg, MessageAt(raw, at), at, env)[j].chunk)
  {
    var msg := MessageAt(raw, at);
    var e := Plan(cfg, msg, at, env)[j];
    assert msg.Raw?;
    var es := ChunkEvents(cfg, msg.event, env.stamp);
    var published := PublishSucceeds(env, |es|);
    var pub := Publishes(es, published, env.delivered, 0);
    assert e == pub[j];
    PublishesOnly(es, published, env.delivered, 0, e);
    var k: nat :| k < |es| && e.chunk == es[k];
    assert ChunkOfMessage(cfg, raw, at, k, e.chunk);
  }

  // ---- The invariant ----

  /** What the rest of the argument needs to know about a plan. */
  ghost predicate PlanInv(cfg: Config, raw: RawLog, at: Place, plan: seq<Effect>)
    requires InLog(raw, at)
  {
    && (forall k :: 0 <= k < |plan| && plan[k].Commit? ==>
          plan[k].place == at && k == |plan| - 1 && PlanAccounts(cfg, MessageAt(raw, at), at, plan, k))
    && PlanAccounts(cfg, MessageAt(raw, at), at, plan, |plan|)
    && (forall k :: 0 <= k < |plan| && plan[k].Publish? ==> Genuine(cfg, raw, plan[k].chunk))
  }

  lemma PlanKeepsPromises(cfg: Config, raw: RawLog, at: Place, env: Env)
    requires InLog(raw, at)
    ensures PlanInv(cfg, raw, at, Plan(cfg, MessageAt(raw, at), at, env))
    ensures |Plan(cfg, MessageAt(raw, at), at, env)| > 0
  {
    var msg := MessageAt(raw, at);
    var p := Plan(cfg, msg, at, env);
    forall k | 0 <= k < |p| && p[k].Commit?
      ensures p[k].place == at && k == |p| - 1 && PlanAccounts(cfg, msg, at, p, k)
    {
      PlanCommitsLast(cfg, msg, at, env, k);
    }
    PlanCommitsLast(cfg, msg, at, env, |p|);
    forall k | 0 <= k < |p| && p[k].Publish?
      ensures Genuine(cfg, raw, p[k].chunk)
    {
      PlanPublishesOwn(cfg, raw, at, env, k);
    }
  }

  ghost predicate JobInv(cfg: Config, raw: RawLog, s: State)
  {
    s.job.Some? ==>
      var job := s.job.value;
      && InLog(raw, job.place) && PlanInv(cfg, raw, job.place, job.plan)
      && Progress(s, job)
  }

  /** What is already durable of the plan in hand, and where the committed mark stands. */
  ghost predicate Progress(s: State, job: Job) {
    && job.place.offset < At(s.position, job.place.partition)
    && job.done <= |job.plan|
    && At(s.topics.committed, job.place.partition)
       <= (if job.done < |job.plan| then job.place.offset else job.place.offset + 1)
    && forall j :: 0 <= j < job.done ==> IsDurable(s, job.plan[j])
  }

  ghost predicate IsDurable(s: State, e: Effect) {
    match e
    case Publish(c) => c in s.topics.out
    case Dlq(place, reason) => (place, reason) in s.topics.dlq
    case DlqDropped(place) => place in s.dropped
    case Commit(_) => true
  }

  ghost predicate Marks(s: State) {
    forall p :: At(s.topics.committed, p) <= At(s.position, p)
  }

  ghost predicate InHand(s: State, at: Place) {
    s.job.Some? && s.job.value.place == at
  }

  ghost predicate PolledAccounted(cfg: Config, raw: RawLog, s: State)
  {
    forall at: Place :: at.offset < At(s.position, at.partition) ==>
      InHand(s, at) || AccountedOrDropped(cfg, raw, s, at)
  }

  ghost predicate CommittedAccounted(cfg: Config, raw: RawLog, s: State)
  {
    forall at: Place :: at.offset < At(s.topics.committed, at.partition) ==> AccountedOrDropped(cfg, raw, s, at)
  }

  ghost predicate OutGenuine(cfg: Config, raw: RawLog, s: State)
  {
    forall c :: c in s.topics.out ==> Genuine(cfg, raw, c)
  }

  ghost predicate Inv(cfg: Config, raw: RawLog, s: State)
  {
    && Marks(s) && PolledAccounted(cfg, raw, s) && CommittedAccounted(cfg, raw, s)
    && OutGenuine(cfg, raw, s) && JobInv(cfg, raw, s)
  }

  /** Nothing that is durable is ever undone. */
  ghost predicate Grows(s: State, t: State) {
    && s.dropped <= t.dropped
    && s.topics.dlq <= t.topics.dlq && s.topics.out <= t.topics.out
  }

  lemma AccountedGrows(cfg: Config, raw: RawLog, s: State, t: State, at: Place)
    requires Grows(s, t) && AccountedOrDropped(cfg, raw, s, at)
    ensures AccountedOrDropped(cfg, raw, t, at)
  {
    if at !in t.dropped && !InDlq(t, at) && MessageAt(raw, at).Raw? {
      var e := MessageAt(raw, at).event;
      forall i | 0 <= i < |ChunkEvents(cfg, e, 0)|
        ensures Emits(t.topics.out, ChunkEvents(cfg, e, 0)[i])
      {
        assert Emits(s.topics.out, ChunkEvents(cfg, e, 0)[i]);
        var k :| 0 <= k < |s.topics.out| && SameChunk(s.topics.out[k], ChunkEvents(cfg, e, 0)[i]);
        assert t.topics.out[k] == s.topics.out[k];
      }
    }
  }

  lemma AllAccountedGrows(cfg: Config, raw: RawLog, s: State, t: State)
    requires Grows(s, t)
    ensures forall at :: AccountedOrDropped(cfg, raw, s, at) ==> AccountedOrDropped(cfg, raw, t, at)
  {
    forall at | AccountedOrDropped(cfg, raw, s, at)
      ensures AccountedOrDropped(cfg, raw, t, at)
    {
      AccountedGrows(cfg, raw, s, t, at);
    }
  }

  /** The durable effects of the job in hand deal with its message. */
  lemma DurablePlanAccounts(cfg: Config, raw: RawLog, s: State, job: Job)
    requires InLog(raw, job.place) && Progress(s, job)
    requires PlanAccounts(cfg, MessageAt(raw, job.place), job.place, job.plan, job.done)
    ensures AccountedOrDropped(cfg, raw, s, job.place)
  {
    var at, p := job.place, job.plan;
    var msg := MessageAt(raw, at);
    if msg.Raw? {
      if j :| 0 <= j < job.done && (p[j].Dlq? || p[j].DlqDropped?) && p[j].place == at {
        assert IsDurable(s, p[j]);
      } else {
        forall i | 0 <= i < |ChunkEvents(cfg, msg.event, 0)|
          ensures Emits(s.topics.out, ChunkEvents(cfg, msg.event, 0)[i])
        {
          assert PublishedBy(p, job.done, ChunkEvents(cfg, msg.event, 0)[i]);
          var j :| 0 <= j < job.done && p[j].Publish? && SameChunk(p[j].chunk, ChunkEvents(cfg, msg.event, 0)[i]);
          assert IsDurable(s, p[j]);
          var k :| 0 <= k < |s.topics.out| && s.topics.out[k] == p[j].chunk;
        }
      }
    }
  }

  lemma NextGrows(cfg: Config, raw: RawLog, s: State, l: Label)
    requires Enabled(cfg, raw, s, l)
    ensures Grows(s, Next(cfg, raw, s, l))
  {}

  /** At a commit, and at the end of the plan, everything below the read position is accounted for. */
  lemma AllBelowPosition(cfg: Config, raw: RawLog, s: State)
    requires PolledAccounted(cfg, raw, s) && JobInv(cfg, raw, s) && s.job.Some?
    requires s.job.value.done == |s.job.value.plan| || s.job.value.plan[s.job.value.done].Commit?
    ensures forall at: Place :: at.offset < At(s.position, at.partition) ==> AccountedOrDropped(cfg, raw, s, at)
  {
    DurablePlanAccounts(cfg, raw, s, s.job.value);
  }

  ghost predicate CommitsOwnOffsetLast(job: Job) {
    forall k :: 0 <= k < |job.plan| && job.plan[k].Commit? ==> job.plan[k].place == job.place && k == |job.plan| - 1
  }

  lemma DurableProgress(s: State, t: State, job: Job)
    requires Progress(s, job) && job.done < |job.plan| && CommitsOwnOffsetLast(job)
    requires t.topics == Durable(s, job.plan[job.done]).topics && t.dropped == Durable(s, job.plan[job.done]).dropped
    requires t.position == s.position
    ensures Progress(t, job.(done := job.done + 1))
  {
    forall j | 0 <= j < job.done + 1
      ensures IsDurable(t, job.plan[j])
    {
      assert j < job.done ==> IsDurable(s, job.plan[j]);
    }
  }

  lemma ProgressStep(cfg: Config, raw: RawLog, s: State, t: State)
    requires JobInv(cfg, raw, s) && Enabled(cfg, raw, s, Perform) && t == Next(cfg, raw, s, Perform)
    ensures JobInv(cfg, raw, t)
  {
    assert PlanInv(cfg, raw, s.job.value.place, s.job.value.plan);
    DurableProgress(s, t, s.job.value);
  }

  lemma PerformKeepsMarks(cfg: Config, raw: RawLog, s: State, t: State)
    requires Inv(cfg, raw, s) && Enabled(cfg, raw, s, Perform) && t == Next(cfg, raw, s, Perform)
    ensures Marks(t) && CommittedAccounted(cfg, raw, t)
    ensures forall p :: At(s.topics.committed, p) <= At(t.topics.committed, p)
  {
    var job := s.job.value;
    NextGrows(cfg, raw, s, Perform);
    AllAccountedGrows(cfg, raw, s, t);
    if job.plan[job.done].Commit? {
      AllBelowPosition(cfg, raw, s);
    }
  }

  lemma KeepsPolled(cfg: Config, raw: RawLog, s: State, t: State)
    requires PolledAccounted(cfg, raw, s) && Grows(s, t)
    requires t.position == s.position && forall at :: InHand(s, at) ==> InHand(t, at)
    ensures PolledAccounted(cfg, raw, t)
  {
    AllAccountedGrows(cfg, raw, s, t);
  }

  lemma PerformKeepsInv(cfg: Config, raw: RawLog, s: State)
    requires Inv(cfg, raw, s) && Enabled(cfg, raw, s, Perform)
    ensures Inv(cfg, raw, Next(cfg, raw, s, Perform))
    ensures forall p :: At(s.topics.committed, p) <= At(Next(cfg, raw, s, Perform).topics.committed, p)
  {
    var t := Next(cfg, raw, s, Perform);
    ProgressStep(cfg, raw, s, t);
    PerformKeepsMarks(cfg, raw, s, t);
    NextGrows(cfg, raw, s, Perform);
    KeepsPolled(cfg, raw, s, t);
    assert PlanInv(cfg, raw, s.job.value.place, s.job.value.plan);
  }

  lemma StartKeepsInv(cfg: Config, raw: RawLog, s: State, l: Label)
    requires Inv(cfg, raw, s) && Enabled(cfg, raw, s, l) && l.Start?
    ensures Inv(cfg, raw, Next(cfg, raw, s, l))
  {
    var t := Next(cfg, raw, s, l);
    var here := Place(l.partition, At(s.position, l.partition));
    AllAccountedGrows(cfg, raw, s, t);
    PlanKeepsPromises(cfg, raw, here, l.env);
    assert JobInv(cfg, raw, t);
  }

  /** Every step keeps the invariant, and no step moves a committed mark back. */
  lemma NextKeepsInv(cfg: Config, raw: RawLog, s: State, l: Label)
    requires Inv(cfg, raw, s) && Enabled(cfg, raw, s, l)
    ensures Inv(cfg, raw, Next(cfg, raw, s, l))
    ensures forall p :: At(s.topics.committed, p) <= At(Next(cfg, raw, s, l).topics.committed, p)
  {
    var t := Next(cfg, raw, s, l);
    match l {
      case Perform => PerformKeepsInv(cfg, raw, s);
      case Start(_, _) => StartKeepsInv(cfg, raw, s, l);
      case Finish =>
        AllBelowPosition(cfg, raw, s);
        AllAccountedGrows(cfg, raw, s, t);
      case Crash =>
        AllAccountedGrows(cfg, raw, s, t);
    }
  }

  lemma InitInv(cfg: Config, raw: RawLog)
    ensures Inv(cfg, raw, INIT)
  {}

  // ---- Runs ----

  ghost predicate IsRun(cfg: Config, raw: RawLog, states: seq<State>, labels: seq<Label>)
  {
    && |states| == |labels| + 1 && states[0] == INIT
    && forall i :: 0 <= i < |labels| ==>
         Enabled(cfg, raw, states[i], labels[i]) && states[i + 1] == Next(cfg, raw, states[i], labels[i])
  }

  lemma {:induction false} RunInv(cfg: Config, raw: RawLog, states: seq<State>, labels: seq<Label>, i: nat)
    requires IsRun(cfg, raw, states, labels) && i < |states|
    ensures Inv(cfg, raw, states[i])
  {
    if i == 0 {
      InitInv(cfg, raw);
    } else {
      RunInv(cfg, raw, states, labels, i - 1);
      NextKeepsInv(cfg, raw, states[i - 1], labels[i - 1]);
    }
  }

  /**
   Doc-processor commit safety. In every state of every run, with any crashes and any failures,
   each offset below a committed mark is undecodable, in the DLQ, fully published (an
   empty document trivially so), or its DLQ write was dropped; and no committed mark ever moves back.
   */
  lemma CommitSafety(cfg: Config, raw: RawLog, states: seq<State>, labels: seq<Label>, i: nat, at: Place)
    requires IsRun(cfg, raw, states, labels) && i < |states|
    requires at.offset < At(states[i].topics.committed, at.partition)
    ensures InLog(raw, at)
    ensures at in states[i].dropped || Accounted(cfg, raw, states[i], at)
    ensures i + 1 < |states| ==> forall p :: At(states[i].topics.committed, p) <= At(states[i + 1].topics.committed, p)
  {
    RunInv(cfg, raw, states, labels, i);
    if i + 1 < |states| {
      NextKeepsInv(cfg, raw, states[i], labels[i]);
    }
  }

  /** As long as every DLQ write succeeds, nothing is dropped. */
  lemma {:induction false} NoDropWhenDlqWorks(
    cfg: Config, raw: RawLog, states: seq<State>, labels: seq<Label>, i: nat)
    requires IsRun(cfg, raw, states, labels) && i < |states|
    requires forall l :: l in labels && l.Start? ==> l.env.dlqOk
    ensures states[i].dropped == {}
    ensures states[i].job.Some? ==> forall e :: e in states[i].job.value.plan ==> !e.DlqDropped?
  {
    if i == 0 {
    } else {
      NoDropWhenDlqWorks(cfg, raw, states, labels, i - 1);
      var s, l := states[i - 1], labels[i - 1];
      assert l in labels;
      if l.Start? {
        var here := Place(l.partition, At(s.position, l.partition));
        PlanDrops(cfg, MessageAt(raw, here), here, l.env);
      }
    }
  }

  /**
   When a message is lost. One complete attempt at a message leaves it neither undecodable, nor in the DLQ,
   nor fully published, exactly when the DLQ write raises and either the fetch failed, the parse
   failed, or the publish failed without delivering every chunk. In the first two cases its offset
   is committed all the same.
   */
  lemma LostExactlyWhen(cfg: Config, e: RawEvent, at: Place, env: Env)
    ensures var p := Plan(cfg, Raw(e), at, env);
            var n := |ChunkEvents(cfg, e, env.stamp)|;
            var saved := (exists j :: 0 <= j < |p| && p[j].Dlq?)
              || (cfg.parse(e).Text? && env.fetchOk
                  && forall i :: 0 <= i < n ==> Publish(ChunkEvents(cfg, e, env.stamp)[i]) in p);
            var noCopy := !env.fetchOk || cfg.parse(e).Unparsable?
              || (!PublishSucceeds(env, n) && Undelivered(cfg, e, env));
            && (!saved <==> !env.dlqOk && noCopy)
            && (!env.fetchOk || cfg.parse(e).Unparsable? ==> Commit(at) in p)
  {
    var p := Plan(cfg, Raw(e), at, env);
    if !env.fetchOk || cfg.parse(e).Unparsable? {
      assert p[0].Dlq? <==> env.dlqOk;
      assert p[1] == Commit(at);
    } else {
      LostAtPublish(cfg, e, at, env);
    }
  }

  /** Some chunk did not reach the topic. */
  ghost predicate Undelivered(cfg: Config, e: RawEvent, env: Env)
  {
    exists i :: 0 <= i < |ChunkEvents(cfg, e, env.stamp)| && i !in env.delivered
  }

  lemma LostAtPublish(cfg: Config, e: RawEvent, at: Place, env: Env)
    requires env.fetchOk && cfg.parse(e).Text?
    ensures var p := Plan(cfg, Raw(e), at, env);
            var es := ChunkEvents(cfg, e, env.stamp);
            var published := PublishSucceeds(env, |es|);
            && ((exists j :: 0 <= j < |p| && p[j].Dlq?) <==> |es| > 0 && !published && env.dlqOk)
            && ((forall i :: 0 <= i < |es| ==> Publish(es[i]) in p) <==> published || !Undelivered(cfg, e, env))
  {
    var p := Plan(cfg, Raw(e), at, env);
    var es := ChunkEvents(cfg, e, env.stamp);
    var published := PublishSucceeds(env, |es|);
    if |es| > 0 {
      var pub := Publishes(es, published, env.delivered, 0);
      var last := if published then Commit(at) else DlqWrite(env, at, ChunkPublishFailed);
      assert p == pub + [last];
      assert p[|pub|] == last;
      forall i | 0 <= i < |es|
        ensures Publish(es[i]) in p <==> published || i in env.delivered
      {
        if published || i in env.delivered {
          PublishesAll(es, published, env.delivered, 0, i);
          assert Publish(es[i]) in pub;
        } else if Publish(es[i]) in pub {
          PublishesOnly(es, published, env.delivered, 0, Publish(es[i]));
        }
      }
    }
  }

  /** A working DLQ never drops a message. */
  lemma PlanDrops(cfg: Config, msg: RawMessage, at: Place, env: Env)
    requires env.dlqOk
    ensures forall e :: e in Plan(cfg, msg, at, env) ==> !e.DlqDropped?
  {}
}
