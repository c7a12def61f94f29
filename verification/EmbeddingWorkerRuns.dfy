/**
 The embedding worker as a state machine over a growing chunk topic: poll a message into the
 batch (an undecodable one is dropped), decide how the batch will go, make the effects of its
 plan durable one by one, and at any moment crash back to the committed offsets.
 */
module EmbeddingWorkerRuns {
  import opened Events
  import opened Identity
  import opened Options
  import opened Milvus
  import opened EmbeddingWorker
  import opened EmbeddingBatch

  type Topic = map<nat, seq<ChunkMessage>>

  function Records(log: Topic, partition: nat): seq<ChunkMessage> {
    if partition in log then log[partition] else []
  }

  ghost predicate InLog(log: Topic, at: Place) {
    at.offset < |Records(log, at.partition)|
  }

  function MessageAt(log: Topic, at: Place): ChunkMessage
    requires InLog(log, at)
  {
    Records(log, at.partition)[at.offset]
  }

  /** The plan of the batch in hand, and how many of its effects are durable. */
  datatype Work = Work(plan: seq<Effect>, done: nat)

  datatype State = State(
    log: Topic,
    position: map<nat, nat>,
    world: World,
    batch: seq<Msg>,
    work: Option<Work>,
    skipped: set<Place>)       // messages of batches for which the backend returned None

  datatype Label =
    | Append(partition: nat, msg: ChunkMessage)
    | Poll(partition: nat)
    | Process(env: Env)
    | Perform
    | Finish
    | Crash

  const INIT := State(map[], map[], World(map[], [], [], [], map[]), [], None, {})

  ghost predicate Enabled(embed: string -> Vector, s: State, l: Label) {
    match l
    case Append(_, _) => true
    case Poll(p) => s.work.None? && At(s.position, p) < |Records(s.log, p)|
    case Process(env) => s.work.None? && |s.batch| > 0 && Faithful(s.batch, env, embed)
    case Perform => s.work.Some? && s.work.value.done < |s.work.value.plan|
    case Finish => s.work.Some? && s.work.value.done == |s.work.value.plan|
    case Crash => true
  }

  ghost function Next(embed: string -> Vector, s: State, l: Label): State
    requires Enabled(embed, s, l)
  {
    match l
    case Append(p, msg) => s.(log := s.log[p := Records(s.log, p) + [msg]])
    case Poll(p) =>
      var o := At(s.position, p);
      var t := s.(position := s.position[p := o + 1]);
      (match Records(s.log, p)[o]
       case ChunkMsg(c) => t.(batch := s.batch + [Msg(Place(p, o), c)])
       case ChunkGarbage => t)
    case Process(env) => s.(work := Some(Work(Plan(s.batch, env), 0)))
    case Perform =>
      var w := s.work.value;
      s.(world := Apply(s.world, w.plan[w.done]), work := Some(w.(done := w.done + 1)))
    case Finish =>
      s.(batch := [], work := None, skipped := s.skipped + if s.work.value.plan == [] then PlacesOf(s.batch) else {})
    case Crash => s.(position := s.world.committed, batch := [], work := None)
  }

  function PlacesOf(batch: seq<Msg>): set<Place> {
    set m | m in batch :: m.place
  }

  // ---- What it means for a message to be safe ----

  ghost predicate Has(store: Store, tenant: string, chunkId: string) {
    CollectionName(tenant) in store && chunkId in store[CollectionName(tenant)]
  }

  ghost predicate InDlq(s: State, at: Place) {
    exists reason :: (at, reason) in s.world.dlq
  }

  /** Undecodable, in the DLQ, stored under its chunk id in its own tenant's collection, or skipped. */
  ghost predicate Covered(s: State, at: Place) {
    && InLog(s.log, at)
    && match MessageAt(s.log, at)
       case ChunkGarbage => true
       case ChunkMsg(c) => InDlq(s, at) || Has(s.world.store, c.tenant, c.chunkId) || at in s.skipped
  }

  /** The chunk has been on the topic. */
  ghost predicate Logged(log: Topic, c: ChunkEvent) {
    exists at :: InLog(log, at) && MessageAt(log, at) == ChunkMsg(c)
  }

  /** The row is the row of a logged chunk of the tenant the collection belongs to. */
  ghost predicate IsRowOfLog(embed: string -> Vector, log: Topic, name: string, id: string, r: Row) {
    exists c :: Logged(log, c) && name == CollectionName(c.tenant) && id == c.chunkId && r == RowOf(c, embed(c.text))
  }

  ghost predicate RowsComeFromLog(embed: string -> Vector, s: State) {
    forall name, id :: name in s.world.store && id in s.world.store[name] ==>
      IsRowOfLog(embed, s.log, name, id, s.world.store[name][id])
  }

  ghost predicate IsDurable(s: State, e: Effect) {
    match e
    case Upsert(t, rows) => forall r :: r in rows ==> Has(s.world.store, t, r.chunkId)
    case Dlq(place, reason) => (place, reason) in s.world.dlq
    case _ => true
  }

  // ---- The invariant ----

  ghost predicate BatchInv(s: State) {
    && (forall m :: m in s.batch ==>
          && InLog(s.log, m.place) && MessageAt(s.log, m.place) == ChunkMsg(m.chunk)
          && m.place.offset < At(s.position, m.place.partition))
    && Ordered(s.batch)
    && (s.work.None? ==> forall m :: m in s.batch ==> At(s.world.committed, m.place.partition) <= m.place.offset)
  }

  ghost predicate Ordered(batch: seq<Msg>) {
    forall i, j :: 0 <= i < j < |batch| && batch[i].place.partition == batch[j].place.partition ==>
      batch[i].place.offset < batch[j].place.offset
  }

  // What the rest of the argument needs to know about a plan.

  /** In front of a commit, and at the end of a plan with any effect, every message of the batch is safe. */
  ghost predicate Safe(embed: string -> Vector, batch: seq<Msg>, plan: seq<Effect>) {
    && (forall k :: 0 <= k < |plan| && plan[k].Commit? ==> forall m :: m in batch ==> StoredBy(plan, k, m, embed))
    && (plan != [] ==> forall m :: m in batch ==> StoredBy(plan, |plan|, m, embed) || DlqBy(plan, |plan|, m))
  }

  ghost predicate CommitsInBatchOrder(batch: seq<Msg>, plan: seq<Effect>) {
    && (forall k :: 0 <= k < |plan| && plan[k].Commit? ==> exists m :: m in batch && m.place == plan[k].place)
    && (forall i, j :: 0 <= i < j < |plan| && plan[i].Commit? && plan[j].Commit?
                       && plan[i].place.partition == plan[j].place.partition ==>
          plan[i].place.offset < plan[j].place.offset)
  }

  ghost predicate WritesLoggedRows(embed: string -> Vector, log: Topic, plan: seq<Effect>) {
    forall e, r :: e in plan && e.Upsert? && r in e.rows ==>
      IsRowOfLog(embed, log, CollectionName(e.tenant), r.chunkId, r)
  }

  ghost predicate PlanInv(embed: string -> Vector, log: Topic, batch: seq<Msg>, plan: seq<Effect>) {
    Safe(embed, batch, plan) && CommitsInBatchOrder(batch, plan) && WritesLoggedRows(embed, log, plan)
  }

  /** What is already durable of the plan in hand, and where its pending commits stand. */
  ghost predicate Progress(s: State, plan: seq<Effect>, done: nat) {
    && done <= |plan|
    && (forall j :: 0 <= j < done ==> IsDurable(s, plan[j]))
    && (forall j :: done <= j < |plan| && plan[j].Commit? ==>
          At(s.world.committed, plan[j].place.partition) <= plan[j].place.offset)
  }

  ghost predicate WorkInv(embed: string -> Vector, s: State) {
    s.work.Some? ==>
      && PlanInv(embed, s.log, s.batch, s.work.value.plan)
      && Progress(s, s.work.value.plan, s.work.value.done)
  }

  ghost predicate Marks(s: State) {
    forall p :: At(s.world.committed, p) <= At(s.position, p) <= |Records(s.log, p)|
  }

  ghost predicate InBatch(s: State, at: Place) {
    exists m :: m in s.batch && m.place == at
  }

  /** Everything polled is in the batch or covered. */
  ghost predicate PolledCovered(s: State) {
    forall at: Place :: at.offset < At(s.position, at.partition) ==> InBatch(s, at) || Covered(s, at)
  }

  ghost predicate CommittedCovered(s: State) {
    forall at: Place :: at.offset < At(s.world.committed, at.partition) ==> Covered(s, at)
  }

  ghost predicate Inv(embed: string -> Vector, s: State) {
    && Marks(s) && PolledCovered(s) && CommittedCovered(s)
    && RowsComeFromLog(embed, s) && BatchInv(s) && WorkInv(embed, s)
  }

  // ---- Nothing durable is undone ----

  ghost predicate Grows(s: State, t: State) {
    && (forall p :: Records(s.log, p) <= Records(t.log, p))
    && s.world.dlq <= t.world.dlq && s.skipped <= t.skipped
    && StoreGrows(s.world.store, t.world.store)
  }

  ghost predicate StoreGrows(s: Store, t: Store) {
    forall name, id :: name in s && id in s[name] ==> name in t && id in t[name]
  }

  lemma CoveredGrows(s: State, t: State, at: Place)
    requires Grows(s, t) && Covered(s, at)
    ensures Covered(t, at)
  {
    assert Records(s.log, at.partition) <= Records(t.log, at.partition);
    assert MessageAt(t.log, at) == MessageAt(s.log, at);
  }

  lemma LoggedGrows(s: Topic, t: Topic, c: ChunkEvent)
    requires forall p :: Records(s, p) <= Records(t, p)
    requires Logged(s, c)
    ensures Logged(t, c)
  {
    var at :| InLog(s, at) && MessageAt(s, at) == ChunkMsg(c);
    assert Records(s, at.partition) <= Records(t, at.partition);
    assert InLog(t, at) && MessageAt(t, at) == ChunkMsg(c);
  }

  lemma ApplyGrows(w: World, e: Effect)
    ensures StoreGrows(w.store, Apply(w, e).store)
    ensures w.dlq <= Apply(w, e).dlq
    ensures e.Upsert? ==> forall r :: r in e.rows ==> Has(Apply(w, e).store, e.tenant, r.chunkId)
  {
    if e.Upsert? {
      var name := CollectionName(e.tenant);
      UpsertKeys(Get(w.store, name), e.rows);
      forall r | r in e.rows
        ensures r.chunkId in Ids(e.rows)
      {
        var i :| 0 <= i < |e.rows| && e.rows[i] == r;
        assert e.rows[i].chunkId in Ids(e.rows);
      }
    }
  }

  lemma NextGrows(embed: string -> Vector, s: State, l: Label)
    requires Enabled(embed, s, l)
    ensures Grows(s, Next(embed, s, l))
  {
    if l.Perform? {
      ApplyGrows(s.world, s.work.value.plan[s.work.value.done]);
    }
  }

  /** What covered all of s still covers t. */
  lemma AllCoveredGrows(s: State, t: State)
    requires Grows(s, t)
    ensures forall at :: Covered(s, at) ==> Covered(t, at)
  {
    forall at | Covered(s, at)
      ensures Covered(t, at)
    {
      CoveredGrows(s, t, at);
    }
  }

  // ---- What the plan of a batch guarantees ----

  lemma PlanIsSafe(embed: string -> Vector, batch: seq<Msg>, env: Env)
    requires |batch| > 0 && Faithful(batch, env, embed)
    ensures Safe(embed, batch, Plan(batch, env))
  {
    var p := Plan(batch, env);
    forall k | 0 <= k < |p| && p[k].Commit?
      ensures forall m :: m in batch ==> StoredBy(p, k, m, embed)
    {
      PlanCovers(batch, env, embed, k);
    }
    BatchConservation(batch, env);
    PlanCovers(batch, env, embed, |p|);
  }

  /** The k-th effect, a commit, belongs to the message this far from the end of the batch. */
  lemma CommitIndex(batch: seq<Msg>, env: Env, k: nat) returns (i: nat)
    requires |batch| > 0
    requires k < |Plan(batch, env)| && Plan(batch, env)[k].Commit?
    ensures i < |batch| && batch[i].place == Plan(batch, env)[k].place
    ensures |batch| - i == |Plan(batch, env)| - k
  {
    var upserts, rest := PlanShape(batch, env);
    if Fails(batch, env) {
      var reason :| rest == DlqAll(batch, reason);
      assert forall e :: e in rest ==> !e.Commit?;
    }
    i := CommitInSuccess(batch, Plan(batch, env), upserts, rest, k);
  }

  lemma CommitInSuccess(
    batch: seq<Msg>, p: seq<Effect>, upserts: seq<Effect>, rest: seq<Effect>, k: nat) returns (i: nat)
    requires p == upserts + rest && k < |p| && p[k].Commit?
    requires forall e :: e in upserts ==> !e.Commit?
    requires rest == Success(batch) || forall e :: e in rest ==> !e.Commit?
    ensures i < |batch| && batch[i].place == p[k].place
    ensures |batch| - i == |p| - k
  {
    assert forall j :: 0 <= j < |upserts| ==> p[j] == upserts[j] && upserts[j] in upserts;
    assert p[k] == rest[k - |upserts|];
    i := SuccessCommit(batch, k - |upserts|);
  }

  lemma PlanCommitsInOrder(batch: seq<Msg>, env: Env)
    requires |batch| > 0 && Ordered(batch)
    ensures CommitsInBatchOrder(batch, Plan(batch, env))
  {
    var p := Plan(batch, env);
    forall k | 0 <= k < |p| && p[k].Commit?
      ensures exists m :: m in batch && m.place == p[k].place
    {
      var i := CommitIndex(batch, env, k);
      assert batch[i] in batch;
    }
    forall i, j | 0 <= i < j < |p| && p[i].Commit? && p[j].Commit? && p[i].place.partition == p[j].place.partition
      ensures p[i].place.offset < p[j].place.offset
    {
      var a := CommitIndex(batch, env, i);
      var b := CommitIndex(batch, env, j);
      assert batch[a].place.offset < batch[b].place.offset;
    }
  }

  lemma PlanWritesLoggedRows(embed: string -> Vector, s: State, env: Env)
    requires BatchInv(s) && Faithful(s.batch, env, embed)
    ensures WritesLoggedRows(embed, s.log, Plan(s.batch, env))
  {
    forall e, r | e in Plan(s.batch, env) && e.Upsert? && r in e.rows
      ensures IsRowOfLog(embed, s.log, CollectionName(e.tenant), r.chunkId, r)
    {
      UpsertsStayWithTenant(s.batch, env, e, r);
      var i: nat :| i < |s.batch| && i < |Embed(env).vs| && r == RowOf(s.batch[i].chunk, Embed(env).vs[i]);
      var m := s.batch[i];
      assert m in s.batch;
      assert Logged(s.log, m.chunk);
      assert r == RowOf(m.chunk, embed(m.chunk.text));
    }
  }

  // ---- Making an effect durable ----

  lemma UpsertKeepsOrigin(embed: string -> Vector, s: State)
    requires RowsComeFromLog(embed, s) && Enabled(embed, s, Perform)
    requires WritesLoggedRows(embed, s.log, s.work.value.plan)
    ensures RowsComeFromLog(embed, Next(embed, s, Perform))
  {
    var w := s.work.value;
    var e := w.plan[w.done];
    var t := Next(embed, s, Perform);
    if e.Upsert? {
      var name := CollectionName(e.tenant);
      forall n, id | n in t.world.store && id in t.world.store[n]
        ensures IsRowOfLog(embed, t.log, n, id, t.world.store[n][id])
      {
        if n == name && |e.rows| > 0 {
          UpsertOrigin(Get(s.world.store, name), e.rows, id);
          if i: nat :| i < |e.rows| && e.rows[i].chunkId == id && t.world.store[n][id] == e.rows[i] {
            assert e in w.plan && e.rows[i] in e.rows;
          } else {
            assert n in s.world.store && id in s.world.store[n];
          }
        } else {
          assert n in s.world.store && id in s.world.store[n];
        }
      }
    }
  }

  /** A durable plan prefix that stores or dead-letters a message covers it. */
  lemma DurableCovers(embed: string -> Vector, s: State, m: Msg)
    requires BatchInv(s) && WorkInv(embed, s) && s.work.Some? && m in s.batch
    requires var w := s.work.value; StoredBy(w.plan, w.done, m, embed) || DlqBy(w.plan, w.done, m)
    ensures Covered(s, m.place)
  {
    var w := s.work.value;
    if StoredBy(w.plan, w.done, m, embed) {
      var j :| 0 <= j < w.done && w.plan[j].Upsert? && w.plan[j].tenant == m.chunk.tenant
            && RowOf(m.chunk, embed(m.chunk.text)) in w.plan[j].rows;
      assert IsDurable(s, w.plan[j]);
      assert Has(s.world.store, m.chunk.tenant, RowOf(m.chunk, embed(m.chunk.text)).chunkId);
    } else {
      var j :| 0 <= j < w.done && w.plan[j].Dlq? && w.plan[j].place == m.place;
      assert IsDurable(s, w.plan[j]);
    }
  }

  /** At a commit, and at the end of the plan, everything below the read position is covered. */
  lemma AllBelowPosition(embed: string -> Vector, s: State)
    requires PolledCovered(s) && BatchInv(s) && WorkInv(embed, s) && s.work.Some? && s.work.value.plan != []
    requires s.work.value.done == |s.work.value.plan| || s.work.value.plan[s.work.value.done].Commit?
    ensures forall at: Place :: at.offset < At(s.position, at.partition) ==> Covered(s, at)
  {
    forall m | m in s.batch
      ensures Covered(s, m.place)
    {
      DurableCovers(embed, s, m);
    }
  }

  /** Making the next effect durable is progress, and keeps the pending commits ahead of the marks. */
  lemma ProgressStep(batch: seq<Msg>, s: State, t: State, plan: seq<Effect>, done: nat)
    requires done < |plan| && Progress(s, plan, done) && CommitsInBatchOrder(batch, plan)
    requires t.world == Apply(s.world, plan[done])
    ensures Progress(t, plan, done + 1)
  {
    var e := plan[done];
    ApplyGrows(s.world, e);
    forall j | 0 <= j < done + 1
      ensures IsDurable(t, plan[j])
    {
      if j < done {
        assert IsDurable(s, plan[j]);
      }
    }
    forall j | done + 1 <= j < |plan| && plan[j].Commit?
      ensures At(t.world.committed, plan[j].place.partition) <= plan[j].place.offset
    {
      if e.Commit? && e.place.partition == plan[j].place.partition {
        assert e.place.offset < plan[j].place.offset;
      }
    }
  }

  /** A commit is of a message of the batch, above what is committed and below the position. */
  lemma CommitIsInRange(embed: string -> Vector, s: State) returns (place: Place)
    requires BatchInv(s) && WorkInv(embed, s) && Enabled(embed, s, Perform)
    requires s.work.value.plan[s.work.value.done].Commit?
    ensures s.work.value.plan[s.work.value.done] == Commit(place)
    ensures At(s.world.committed, place.partition) <= place.offset < At(s.position, place.partition)
  {
    place := s.work.value.plan[s.work.value.done].place;
    assert Progress(s, s.work.value.plan, s.work.value.done);
    var m :| m in s.batch && m.place == place;
  }

  lemma CommitKeepsMarks(embed: string -> Vector, s: State, t: State)
    requires BatchInv(s) && WorkInv(embed, s) && Marks(s)
    requires Enabled(embed, s, Perform) && t == Next(embed, s, Perform)
    requires s.work.value.plan[s.work.value.done].Commit?
    ensures Marks(t) && forall p :: At(s.world.committed, p) <= At(t.world.committed, p)
    ensures forall at: Place :: at.offset < At(t.world.committed, at.partition) ==>
        at.offset < At(s.position, at.partition)
  {
    var place := CommitIsInRange(embed, s);
    assert t.world.committed == s.world.committed[place.partition := place.offset + 1];
  }

  lemma PerformKeepsMarks(embed: string -> Vector, s: State, t: State)
    requires Inv(embed, s) && Enabled(embed, s, Perform) && t == Next(embed, s, Perform)
    ensures Marks(t) && CommittedCovered(t)
    ensures forall p :: At(s.world.committed, p) <= At(t.world.committed, p)
  {
    NextGrows(embed, s, Perform);
    AllCoveredGrows(s, t);
    if s.work.value.plan[s.work.value.done].Commit? {
      AllBelowPosition(embed, s);
      CommitKeepsMarks(embed, s, t);
    }
  }

  lemma PerformKeepsPolled(embed: string -> Vector, s: State, t: State)
    requires PolledCovered(s) && Enabled(embed, s, Perform) && t == Next(embed, s, Perform)
    ensures PolledCovered(t)
  {
    NextGrows(embed, s, Perform);
    AllCoveredGrows(s, t);
    forall at: Place | at.offset < At(t.position, at.partition)
      ensures InBatch(t, at) || Covered(t, at)
    {
      if InBatch(s, at) {
        assert InBatch(t, at);
      }
    }
  }

  lemma PerformKeepsInv(embed: string -> Vector, s: State)
    requires Inv(embed, s) && Enabled(embed, s, Perform)
    ensures Inv(embed, Next(embed, s, Perform))
    ensures forall p :: At(s.world.committed, p) <= At(Next(embed, s, Perform).world.committed, p)
  {
    var t := Next(embed, s, Perform);
    var w := s.work.value;
    ProgressStep(s.batch, s, t, w.plan, w.done);
    PerformKeepsMarks(embed, s, t);
    PerformKeepsPolled(embed, s, t);
    UpsertKeepsOrigin(embed, s);
    assert BatchInv(t);
  }

  lemma RowOfLogGrows(embed: string -> Vector, s: Topic, t: Topic)
    requires forall p :: Records(s, p) <= Records(t, p)
    ensures forall name, id, r :: IsRowOfLog(embed, s, name, id, r) ==> IsRowOfLog(embed, t, name, id, r)
  {
    forall name, id, r | IsRowOfLog(embed, s, name, id, r)
      ensures IsRowOfLog(embed, t, name, id, r)
    {
      var c :| Logged(s, c) && name == CollectionName(c.tenant) && id == c.chunkId && r == RowOf(c, embed(c.text));
      LoggedGrows(s, t, c);
    }
  }

  lemma AppendKeepsInv(embed: string -> Vector, s: State, l: Label)
    requires Inv(embed, s) && l.Append?
    ensures Inv(embed, Next(embed, s, l))
  {
    var t := Next(embed, s, l);
    NextGrows(embed, s, l);
    AllCoveredGrows(s, t);
    RowOfLogGrows(embed, s.log, t.log);
    forall m | m in t.batch
      ensures InLog(t.log, m.place) && MessageAt(t.log, m.place) == ChunkMsg(m.chunk)
    {
      assert Records(s.log, m.place.partition) <= Records(t.log, m.place.partition);
    }
    if t.work.Some? {
      forall j | 0 <= j < t.work.value.done
        ensures IsDurable(t, t.work.value.plan[j])
      {
        assert IsDurable(s, t.work.value.plan[j]);
      }
    }
  }

  /** Polling makes one more message known: in the batch, or undecodable. */
  lemma PollKeepsPolled(embed: string -> Vector, s: State, t: State, l: Label)
    requires PolledCovered(s) && Enabled(embed, s, l) && l.Poll? && t == Next(embed, s, l)
    ensures PolledCovered(t)
  {
    var here := Place(l.partition, At(s.position, l.partition));
    NextGrows(embed, s, l);
    forall at: Place | at.offset < At(t.position, at.partition)
      ensures InBatch(t, at) || Covered(t, at)
    {
      if at == here {
        if MessageAt(s.log, here).ChunkMsg? {
          assert t.batch[|s.batch|] in t.batch && t.batch[|s.batch|].place == here;
        }
      } else if InBatch(s, at) {
        var m :| m in s.batch && m.place == at;
        assert m in t.batch;
      } else {
        CoveredGrows(s, t, at);
      }
    }
  }

  lemma PollKeepsMarks(embed: string -> Vector, s: State, t: State, l: Label)
    requires Marks(s) && Enabled(embed, s, l) && l.Poll? && t == Next(embed, s, l)
    ensures Marks(t)
  {}

  lemma PollKeepsOrder(batch: seq<Msg>, last: Msg)
    requires Ordered(batch) && forall m :: m in batch && m.place.partition == last.place.partition ==>
        m.place.offset < last.place.offset
    ensures Ordered(batch + [last])
  {}

  lemma PollKeepsBatch(embed: string -> Vector, s: State, t: State, l: Label)
    requires BatchInv(s) && Marks(s) && Enabled(embed, s, l) && l.Poll? && t == Next(embed, s, l)
    ensures BatchInv(t)
  {
    var p := l.partition;
    if t.batch != s.batch {
      var last := t.batch[|t.batch| - 1];
      assert t.batch == s.batch + [last] && last.place == Place(p, At(s.position, p));
      PollKeepsOrder(s.batch, last);
      assert forall m :: m in t.batch <==> m in s.batch || m == last;
    }
  }

  lemma PollKeepsInv(embed: string -> Vector, s: State, l: Label)
    requires Inv(embed, s) && Enabled(embed, s, l) && l.Poll?
    ensures Inv(embed, Next(embed, s, l))
  {
    var t := Next(embed, s, l);
    PollKeepsPolled(embed, s, t, l);
    PollKeepsMarks(embed, s, t, l);
    PollKeepsBatch(embed, s, t, l);
    NextGrows(embed, s, l);
    AllCoveredGrows(s, t);
  }

  lemma ProcessKeepsInv(embed: string -> Vector, s: State, l: Label)
    requires Inv(embed, s) && Enabled(embed, s, l) && l.Process?
    ensures Inv(embed, Next(embed, s, l))
  {
    var t := Next(embed, s, l);
    NextGrows(embed, s, l);
    AllCoveredGrows(s, t);
    PlanIsSafe(embed, s.batch, l.env);
    PlanCommitsInOrder(s.batch, l.env);
    PlanWritesLoggedRows(embed, s, l.env);
  }

  lemma FinishKeepsInv(embed: string -> Vector, s: State)
    requires Inv(embed, s) && Enabled(embed, s, Finish)
    ensures Inv(embed, Next(embed, s, Finish))
  {
    var t := Next(embed, s, Finish);
    NextGrows(embed, s, Finish);
    AllCoveredGrows(s, t);
    if s.work.value.plan == [] {
      SkippedIsCovered(s, t);
    } else {
      AllBelowPosition(embed, s);
    }
  }

  lemma SkippedIsCovered(s: State, t: State)
    requires BatchInv(s) && PolledCovered(s) && Grows(s, t) && t.log == s.log && PlacesOf(s.batch) <= t.skipped
    ensures forall at: Place :: at.offset < At(s.position, at.partition) ==> Covered(t, at)
  {
    AllCoveredGrows(s, t);
    forall at: Place | at.offset < At(s.position, at.partition) ensures Covered(t, at) {
      if InBatch(s, at) {
        var m :| m in s.batch && m.place == at;
        assert at in PlacesOf(s.batch);
      }
    }
  }

  lemma CrashKeepsInv(embed: string -> Vector, s: State)
    requires Inv(embed, s)
    ensures Inv(embed, Next(embed, s, Crash))
  {
    var t := Next(embed, s, Crash);
    NextGrows(embed, s, Crash);
    AllCoveredGrows(s, t);
  }

  /** Every step keeps the invariant, and no step moves a committed mark back. */
  lemma NextKeepsInv(embed: string -> Vector, s: State, l: Label)
    requires Inv(embed, s) && Enabled(embed, s, l)
    ensures Inv(embed, Next(embed, s, l))
    ensures forall p :: At(s.world.committed, p) <= At(Next(embed, s, l).world.committed, p)
  {
    match l {
      case Append(_, _) => AppendKeepsInv(embed, s, l);
      case Poll(_) => PollKeepsInv(embed, s, l);
      case Process(_) => ProcessKeepsInv(embed, s, l);
      case Perform => PerformKeepsInv(embed, s);
      case Finish => FinishKeepsInv(embed, s);
      case Crash => CrashKeepsInv(embed, s);
    }
  }

  // ---- Runs ----

  ghost predicate IsRun(embed: string -> Vector, states: seq<State>, labels: seq<Label>) {
    && |states| == |labels| + 1 && states[0] == INIT
    && forall i :: 0 <= i < |labels| ==>
         Enabled(embed, states[i], labels[i]) && states[i + 1] == Next(embed, states[i], labels[i])
  }

  lemma {:induction false} RunInv(embed: string -> Vector, states: seq<State>, labels: seq<Label>, i: nat)
    requires IsRun(embed, states, labels) && i < |states|
    ensures Inv(embed, states[i])
  {
    if i == 0 {
    } else {
      RunInv(embed, states, labels, i - 1);
      NextKeepsInv(embed, states[i - 1], labels[i - 1]);
    }
  }

  /** Two logged chunks of one tenant with one chunk id differ at most in their time stamps. */
  ghost predicate Consistent(log: Topic) {
    forall c, d :: Logged(log, c) && Logged(log, d) && c.tenant == d.tenant && c.chunkId == d.chunkId ==>
        SameChunk(c, d)
  }

  /**
   Embedding-worker commit safety. In every state of every run, whatever the batch boundaries, the
   failures and the crashes (also between two DLQ writes or two commits), each offset below a
   committed mark was undecodable, has a DLQ envelope, was in a batch for which the backend returned None, or has a
   row under its chunk id in its own tenant's collection, namely that of a logged chunk of the tenant
   with that id, its own one if ids are used consistently; and no committed mark ever moves back.
   */
  lemma CommitSafety(embed: string -> Vector, states: seq<State>, labels: seq<Label>, i: nat, at: Place)
    requires IsRun(embed, states, labels) && i < |states|
    requires at.offset < At(states[i].world.committed, at.partition)
    ensures InLog(states[i].log, at)
    ensures MessageAt(states[i].log, at).ChunkMsg? && !InDlq(states[i], at) && at !in states[i].skipped ==>
              var c := MessageAt(states[i].log, at).event;
              var name, store := CollectionName(c.tenant), states[i].world.store;
              && Has(store, c.tenant, c.chunkId)
              && IsRowOfLog(embed, states[i].log, name, c.chunkId, store[name][c.chunkId])
              && (Consistent(states[i].log) ==> Stamped(store[name][c.chunkId]) == Stamped(RowOf(c, embed(c.text))))
    ensures i + 1 < |states| ==>
              forall p :: At(states[i].world.committed, p) <= At(states[i + 1].world.committed, p)
  {
    RunInv(embed, states, labels, i);
    var s := states[i];
    assert Covered(s, at);
    if MessageAt(s.log, at).ChunkMsg? && !InDlq(s, at) && at !in s.skipped && Consistent(s.log) {
      var c := MessageAt(s.log, at).event;
      assert Logged(s.log, c);
      OwnRow(embed, s, c);
    }
    if i + 1 < |states| {
      NextKeepsInv(embed, s, labels[i]);
    }
  }

  lemma OwnRow(embed: string -> Vector, s: State, c: ChunkEvent)
    requires RowsComeFromLog(embed, s) && Consistent(s.log)
    requires Logged(s.log, c) && Has(s.world.store, c.tenant, c.chunkId)
    ensures Stamped(s.world.store[CollectionName(c.tenant)][c.chunkId]) == Stamped(RowOf(c, embed(c.text)))
  {
    var name := CollectionName(c.tenant);
    assert IsRowOfLog(embed, s.log, name, c.chunkId, s.world.store[name][c.chunkId]);
    var d :| Logged(s.log, d) && name == CollectionName(d.tenant) && c.chunkId == d.chunkId
          && s.world.store[name][c.chunkId] == RowOf(d, embed(d.text));
    CollectionNameInjective(c.tenant, d.tenant);
    assert SameChunk(c, d);
  }

  // ---- Batches without vectors ----

  /** As long as the backend never returns None, nothing is skipped. */
  lemma {:induction false} NothingSkipped(embed: string -> Vector, states: seq<State>, labels: seq<Label>, i: nat)
    requires IsRun(embed, states, labels) && i < |states|
    requires forall l :: l in labels && l.Process? ==> !Embed(l.env).Nothing?
    ensures states[i].skipped == {}
    ensures states[i].work.Some? ==> states[i].work.value.plan != []
  {
    if i == 0 {
    } else {
      NothingSkipped(embed, states, labels, i - 1);
      var s, l := states[i - 1], labels[i - 1];
      assert l in labels;
      if l.Process? {
        BatchConservation(s.batch, l.env);
      }
    }
  }

  ghost predicate CanDo(embed: string -> Vector, s: State, labels: seq<Label>)
    decreases |labels|
  {
    |labels| > 0 ==> Enabled(embed, s, labels[0]) && CanDo(embed, Next(embed, s, labels[0]), labels[1..])
  }

  ghost function Last(embed: string -> Vector, s: State, labels: seq<Label>): State
    requires CanDo(embed, s, labels)
    decreases |labels|
  {
    if |labels| == 0 then s else Last(embed, Next(embed, s, labels[0]), labels[1..])
  }

  /** The next record polled from the partition is this one. */
  ghost predicate IsNext(s: State, at: Place) {
    s.work.None? && At(s.position, at.partition) == at.offset && InLog(s.log, at)
  }

  /** In some continuation the message is polled, for the first time or again. */
  ghost predicate PolledLater(embed: string -> Vector, s: State, at: Place) {
    exists labels :: CanDo(embed, s, labels) && IsNext(Last(embed, s, labels), at)
  }

  lemma {:induction false} MarksOnlyGrow(embed: string -> Vector, s: State, labels: seq<Label>, p: nat)
    requires Inv(embed, s) && CanDo(embed, s, labels)
    ensures Inv(embed, Last(embed, s, labels))
    ensures At(s.world.committed, p) <= At(Last(embed, s, labels).world.committed, p)
    decreases |labels|
  {
    if |labels| == 0 {
    } else {
      NextKeepsInv(embed, s, labels[0]);
      MarksOnlyGrow(embed, Next(embed, s, labels[0]), labels[1..], p);
    }
  }

  lemma {:induction false} PollUpTo(embed: string -> Vector, s: State, at: Place) returns (labels: seq<Label>)
    requires s.work.None? && InLog(s.log, at) && At(s.position, at.partition) <= at.offset
    ensures CanDo(embed, s, labels) && IsNext(Last(embed, s, labels), at)
    decreases at.offset - At(s.position, at.partition)
  {
    if At(s.position, at.partition) == at.offset {
      labels := [];
    } else {
      var l := Poll(at.partition);
      var rest := PollUpTo(embed, Next(embed, s, l), at);
      labels := [l] + rest;
      assert labels[1..] == rest;
    }
  }

  /**
   When a message is gone. A message on the topic can still be polled, by a crash if not otherwise, if and only if no
   commit of its partition has passed it. So the messages of a batch for which the backend returned None, which leaves
   neither rows nor envelopes nor commits, are lost exactly when a later commit passes them before a crash.
   */
  lemma PolledLaterIff(embed: string -> Vector, states: seq<State>, labels: seq<Label>, i: nat, at: Place)
    requires IsRun(embed, states, labels) && i < |states| && InLog(states[i].log, at)
    ensures PolledLater(embed, states[i], at) <==> At(states[i].world.committed, at.partition) <= at.offset
  {
    RunInv(embed, states, labels, i);
    var s := states[i];
    if At(s.world.committed, at.partition) <= at.offset {
      var rest := PollUpTo(embed, Next(embed, s, Crash), at);
      assert ([Crash] + rest)[1..] == rest;
      assert IsNext(Last(embed, s, [Crash] + rest), at);
    } else {
      forall more | CanDo(embed, s, more) ensures !IsNext(Last(embed, s, more), at) {
        MarksOnlyGrow(embed, s, more, at.partition);
      }
    }
  }
}
