/**
 The embedding worker (services/embedding-worker/src/worker.py): a batch of chunk events is
 embedded, grouped by tenant, upserted, announced and committed, or sent to the DLQ whole.

 As for the doc-processor, a batch has a *plan*, its ordered durable effects; the class is
 proved to carry out exactly that plan, and an exception outside the try blocks, or a
 crash, leaves a prefix of it.
 */
module EmbeddingWorker {
  import opened Events
  import opened Identity
  import opened Milvus
  import opened Options

  datatype Msg = Msg(place: Place, chunk: ChunkEvent)

  datatype EmbedOutcome =
    | Vectors(vs: seq<Vector>)
    | NoVectors                       // the backend returned None
    | RateLimited
    | EmbedFailed

  datatype UpsertOutcome =
    | UpsertOk
    | FailedBefore                    // raised with nothing written
    | FailedAfter                     // the rows were written, then the flush raised

  datatype Env = Env(first: EmbedOutcome, second: EmbedOutcome, upserts: map<string, UpsertOutcome>)

  datatype Reason = EmbeddingRateLimit | EmbeddingError | MilvusError

  datatype Effect =
    | Upsert(tenant: string, rows: seq<Row>)
    | Dlq(place: Place, reason: Reason)
    | Usage(tenant: string, batchSize: nat)
    | Embedded(chunk: ChunkEvent, count: nat)
    | Commit(place: Place)

  function UpsertResult(env: Env, tenant: string): UpsertOutcome {
    if tenant in env.upserts then env.upserts[tenant] else UpsertOk
  }

  // ---- Embedding, with one retry ----

  datatype EmbedResult = Got(vs: seq<Vector>) | Nothing | GaveUp(reason: Reason)

  function Embed(env: Env): EmbedResult {
    match env.first
    case Vectors(vs) => Got(vs)
    case NoVectors => Nothing
    case _ =>
      match env.second
      case Vectors(vs) => Got(vs)
      case NoVectors => Nothing
      case RateLimited => GaveUp(EmbeddingRateLimit)
      case EmbedFailed => GaveUp(EmbeddingError)
  }

  // ---- Rows, tenants and groups ----

  function RowOf(c: ChunkEvent, v: Vector): Row {
    Row(c.docId, c.chunkId, c.sourceType, c.text, v, c.createdAt, c.metadata["tenant_id" := c.tenant], c.tenant)
  }

  function Shorter(m: nat, n: nat): nat {
    if m < n then m else n
  }

  /** Python's zip: the longer list is cut. */
  function RowsOf(batch: seq<Msg>, vs: seq<Vector>): (rows: seq<Row>)
    ensures |rows| == Shorter(|batch|, |vs|)
    ensures forall i :: 0 <= i < |rows| ==> rows[i] == RowOf(batch[i].chunk, vs[i])
  {
    seq(Shorter(|batch|, |vs|), i requires 0 <= i < Shorter(|batch|, |vs|) => RowOf(batch[i].chunk, vs[i]))
  }

  /** The distinct tenants, in order of first appearance (a dict keeps insertion order). */
  function Distinct(ts: seq<string>): (ds: seq<string>)
    ensures forall i, j :: 0 <= i < j < |ds| ==> ds[i] != ds[j]
    ensures forall t :: t in ds <==> t in ts
  {
    if |ts| == 0 then []
    else
      var ds := Distinct(ts[..|ts| - 1]);
      var t := ts[|ts| - 1];
      assert ts == ts[..|ts| - 1] + [t];
      if t in ds then ds else ds + [t]
  }

  function TenantsOf(rows: seq<Row>): (ts: seq<string>)
    ensures |ts| == |rows|
    ensures forall i :: 0 <= i < |rows| ==> ts[i] == rows[i].tenant
  {
    seq(|rows|, i requires 0 <= i < |rows| => rows[i].tenant)
  }

  function TenantsOfBatch(batch: seq<Msg>): (ts: seq<string>)
    ensures |ts| == |batch|
    ensures forall i :: 0 <= i < |batch| ==> ts[i] == batch[i].chunk.tenant
  {
    seq(|batch|, i requires 0 <= i < |batch| => batch[i].chunk.tenant)
  }

  function RowsFor(rows: seq<Row>, tenant: string): (g: seq<Row>)
    ensures forall r :: r in g <==> r in rows && r.tenant == tenant
  {
    if |rows| == 0 then []
    else
      var r := rows[|rows| - 1];
      assert rows == rows[..|rows| - 1] + [r];
      RowsFor(rows[..|rows| - 1], tenant) + if r.tenant == tenant then [r] else []
  }

  function Count(ts: seq<string>, t: string): nat {
    if |ts| == 0 then 0
    else Count(ts[..|ts| - 1], t) + if ts[|ts| - 1] == t then 1 else 0
  }

  // ---- The plan of a batch ----

  function DlqAll(batch: seq<Msg>, reason: Reason): (p: seq<Effect>)
    ensures |p| == |batch|
    ensures forall i :: 0 <= i < |p| ==> p[i] == Dlq(batch[i].place, reason)
  {
    seq(|batch|, i requires 0 <= i < |batch| => Dlq(batch[i].place, reason))
  }

  function UsageEvents(tenants: seq<string>, ts: seq<string>): (p: seq<Effect>)
    ensures |p| == |tenants|
    ensures forall i :: 0 <= i < |p| ==> p[i] == Usage(tenants[i], Count(ts, tenants[i]))
  {
    seq(|tenants|, i requires 0 <= i < |tenants| => Usage(tenants[i], Count(ts, tenants[i])))
  }

  function EmbeddedEvents(batch: seq<Msg>): (p: seq<Effect>)
    ensures |p| == |batch|
    ensures forall i :: 0 <= i < |p| ==> p[i] == Embedded(batch[i].chunk, |batch|)
  {
    seq(|batch|, i requires 0 <= i < |batch| => Embedded(batch[i].chunk, |batch|))
  }

  function Commits(batch: seq<Msg>): (p: seq<Effect>)
    ensures |p| == |batch|
    ensures forall i :: 0 <= i < |p| ==> p[i] == Commit(batch[i].place)
  {
    seq(|batch|, i requires 0 <= i < |batch| => Commit(batch[i].place))
  }

  function Success(batch: seq<Msg>): seq<Effect> {
    var ts := TenantsOfBatch(batch);
    UsageEvents(Distinct(ts), ts) + EmbeddedEvents(batch) + Commits(batch)
  }

  /** No write raises. */
  predicate AllWritten(tenants: seq<string>, env: Env) {
    forall t :: t in tenants ==> UpsertResult(env, t) == UpsertOk
  }

  /** The writes of tenants i.. , up to the first one that raises; that one sends the whole batch to the DLQ. */
  function Writes(batch: seq<Msg>, rows: seq<Row>, tenants: seq<string>, i: nat, env: Env): seq<Effect>
    requires i <= |tenants|
    decreases |tenants| - i
  {
    if i == |tenants| then []
    else
      var t := tenants[i];
      match UpsertResult(env, t)
      case UpsertOk => [Upsert(t, RowsFor(rows, t))] + Writes(batch, rows, tenants, i + 1, env)
      case FailedBefore => DlqAll(batch, MilvusError)
      case FailedAfter => [Upsert(t, RowsFor(rows, t))] + DlqAll(batch, MilvusError)
  }

  function Plan(batch: seq<Msg>, env: Env): seq<Effect> {
    if |batch| == 0 then []
    else
      match Embed(env)
      case Nothing => []
      case GaveUp(reason) => DlqAll(batch, reason)
      case Got(vs) =>
        var rows := RowsOf(batch, vs);
        var tenants := Distinct(TenantsOf(rows));
        Writes(batch, rows, tenants, 0, env) + if AllWritten(tenants, env) then Success(batch) else []
  }

  // ---- The durable side of the effects ----

  datatype World = World(
    store: Store,
    dlq: seq<(Place, Reason)>,
    usage: seq<(string, nat)>,
    embedded: seq<(ChunkEvent, nat)>,
    committed: map<nat, nat>)

  function Apply(w: World, e: Effect): World {
    match e
    case Upsert(t, rows) => w.(store := UpsertInto(w.store, CollectionName(t), rows))
    case Dlq(place, reason) => w.(dlq := w.dlq + [(place, reason)])
    case Usage(t, n) => w.(usage := w.usage + [(t, n)])
    case Embedded(c, n) => w.(embedded := w.embedded + [(c, n)])
    case Commit(place) => w.(committed := w.committed[place.partition := place.offset + 1])
  }

  function Run(w: World, es: seq<Effect>): World {
    if |es| == 0 then w else Apply(Run(w, es[..|es| - 1]), es[|es| - 1])
  }

  // ---- Collecting a batch ----

  datatype PollResult = NoMessage | ConsumerError | Received(place: Place, payload: ChunkMessage)

  /** The decodable messages among the polls made: undecodable ones are logged and dropped. */
  function Collected(polls: seq<PollResult>): seq<Msg> {
    if |polls| == 0 then []
    else
      var rest := Collected(polls[..|polls| - 1]);
      match polls[|polls| - 1]
      case Received(place, ChunkMsg(c)) => rest + [Msg(place, c)]
      case _ => rest
  }

  lemma Associate(s: seq<Effect>, a: seq<Effect>, b: seq<Effect>, c: seq<Effect>)
    ensures s + a + b == s + (a + b)
    ensures s + a + b + c == s + (a + b + c)
  {}

  // ---- The worker itself ----

  class EmbeddingWorker {
    const batchSize: nat
    const milvus: MilvusWriter
    ghost const start: World          // what was there when the process started
    var dlq: seq<(Place, Reason)>
    var usage: seq<(string, nat)>
    var embedded: seq<(ChunkEvent, nat)>
    var committed: map<nat, nat>
    ghost var trace: seq<Effect>      // every effect so far, in order

    ghost predicate Valid()
      reads this, milvus
    {
      && milvus.Valid()
      && World(milvus.collections, dlq, usage, embedded, committed) == Run(start, trace)
    }

    constructor (batchSize: nat, milvus: MilvusWriter, committed: map<nat, nat>)
      requires milvus.Valid()
      ensures Valid() && this.milvus == milvus && this.batchSize == batchSize && trace == []
      ensures start == World(milvus.collections, [], [], [], committed)
    {
      this.batchSize := batchSize;
      this.milvus := milvus;
      this.start := World(milvus.collections, [], [], [], committed);
      this.dlq, this.usage, this.embedded, this.committed, this.trace := [], [], [], committed, [];
    }

    ghost method Record(e: Effect)
      requires milvus.Valid()
      requires World(milvus.collections, dlq, usage, embedded, committed) == Apply(Run(start, trace), e)
      modifies this`trace
      ensures Valid() && trace == old(trace) + [e]
    {
      assert (trace + [e])[..|trace + [e]| - 1] == trace;
      trace := trace + [e];
    }

    method CollectBatch(polls: seq<PollResult>) returns (batch: seq<Msg>, ghost used: nat)
      ensures used <= |polls|
      ensures batch == Collected(polls[..used]) && |batch| <= batchSize
      ensures used < |polls| ==> |batch| == batchSize
    {
      batch, used := [], 0;
      var i := 0;
      while i < |polls| && |batch| < batchSize
        invariant i == used <= |polls|
        invariant batch == Collected(polls[..i]) && |batch| <= batchSize
      {
        assert polls[..i + 1][..i] == polls[..i];
        match polls[i] {
          case Received(place, ChunkMsg(c)) => batch := batch + [Msg(place, c)];
          case _ =>
        }
        i, used := i + 1, used + 1;
      }
    }

    // The five single effects.

    method SendToDlq(place: Place, reason: Reason)
      requires Valid()
      modifies this
      ensures Valid() && trace == old(trace) + [Dlq(place, reason)]
    {
      dlq := dlq + [(place, reason)];
      Record(Dlq(place, reason));
    }

    method EmitUsage(tenant: string, batchSize: nat)
      requires Valid()
      modifies this
      ensures Valid() && trace == old(trace) + [Usage(tenant, batchSize)]
    {
      usage := usage + [(tenant, batchSize)];
      Record(Usage(tenant, batchSize));
    }

    method EmitEmbedded(chunk: ChunkEvent, count: nat)
      requires Valid()
      modifies this
      ensures Valid() && trace == old(trace) + [Embedded(chunk, count)]
    {
      embedded := embedded + [(chunk, count)];
      Record(Embedded(chunk, count));
    }

    method CommitOffset(place: Place)
      requires Valid()
      modifies this
      ensures Valid() && trace == old(trace) + [Commit(place)]
    {
      committed := committed[place.partition := place.offset + 1];
      Record(Commit(place));
    }

    method WriteGroup(tenant: string, rows: seq<Row>)
      requires Valid()
      modifies this, milvus
      ensures Valid() && trace == old(trace) + [Upsert(tenant, rows)]
    {
      assert |CollectionName(tenant)| > 0;
      var count := milvus.Upsert(rows, Some(CollectionName(tenant)));
      Record(Upsert(tenant, rows));
    }

    // The loops over a batch.

    method SendAllToDlq(batch: seq<Msg>, reason: Reason)
      requires Valid()
      modifies this
      ensures Valid() && trace == old(trace) + DlqAll(batch, reason)
    {
      ghost var plan := DlqAll(batch, reason);
      for i := 0 to |batch|
        invariant Valid()
        invariant trace == old(trace) + plan[..i]
      {
        SendToDlq(batch[i].place, reason);
      }
    }

    /** tenant_rows: the rows of each tenant, with the tenants in insertion order. */
    method GroupByTenant(rows: seq<Row>) returns (tenants: seq<string>, groups: map<string, seq<Row>>)
      ensures tenants == Distinct(TenantsOf(rows))
      ensures forall t :: t in groups <==> t in tenants
      ensures forall t :: t in groups ==> groups[t] == RowsFor(rows, t)
    {
      tenants, groups := [], map[];
      for i := 0 to |rows|
        invariant tenants == Distinct(TenantsOf(rows[..i]))
        invariant forall t :: t in groups <==> t in tenants
        invariant forall t :: t in groups ==> groups[t] == RowsFor(rows[..i], t)
        invariant forall t :: t !in groups ==> RowsFor(rows[..i], t) == []
      {
        var t := rows[i].tenant;
        assert rows[..i + 1][..i] == rows[..i];
        assert TenantsOf(rows[..i + 1])[..i] == TenantsOf(rows[..i]);
        if t !in groups {
          tenants := tenants + [t];
          groups := groups[t := []];
        }
        groups := groups[t := groups[t] + [rows[i]]];
      }
      assert rows[..|rows|] == rows;
    }

    method CountByTenant(batch: seq<Msg>) returns (tenants: seq<string>, sizes: map<string, nat>)
      ensures tenants == Distinct(TenantsOfBatch(batch))
      ensures forall t :: t in sizes <==> t in tenants
      ensures forall t :: t in sizes ==> sizes[t] == Count(TenantsOfBatch(batch), t)
    {
      var ts := TenantsOfBatch(batch);
      tenants, sizes := [], map[];
      for i := 0 to |batch|
        invariant tenants == Distinct(ts[..i])
        invariant forall t :: t in sizes <==> t in tenants
        invariant forall t :: t in sizes ==> sizes[t] == Count(ts[..i], t)
        invariant forall t :: t !in sizes ==> Count(ts[..i], t) == 0
      {
        var t := batch[i].chunk.tenant;
        assert ts[..i + 1][..i] == ts[..i];
        if t !in sizes {
          tenants := tenants + [t];
          sizes := sizes[t := 0];
        }
        sizes := sizes[t := sizes[t] + 1];
      }
      assert ts[..|batch|] == ts;
    }

    method PublishUsage(batch: seq<Msg>, tenants: seq<string>, sizes: map<string, nat>)
      requires Valid()
      requires forall t :: t in tenants ==> t in sizes && sizes[t] == Count(TenantsOfBatch(batch), t)
      modifies this
      ensures Valid() && trace == old(trace) + UsageEvents(tenants, TenantsOfBatch(batch))
    {
      ghost var plan := UsageEvents(tenants, TenantsOfBatch(batch));
      for i := 0 to |tenants|
        invariant Valid()
        invariant trace == old(trace) + plan[..i]
      {
        EmitUsage(tenants[i], sizes[tenants[i]]);
      }
    }

    method PublishEmbedded(batch: seq<Msg>)
      requires Valid()
      modifies this
      ensures Valid() && trace == old(trace) + EmbeddedEvents(batch)
    {
      ghost var plan := EmbeddedEvents(batch);
      for i := 0 to |batch|
        invariant Valid()
        invariant trace == old(trace) + plan[..i]
      {
        EmitEmbedded(batch[i].chunk, |batch|);
      }
    }

    method CommitAll(batch: seq<Msg>)
      requires Valid()
      modifies this
      ensures Valid() && trace == old(trace) + Commits(batch)
    {
      ghost var plan := Commits(batch);
      for i := 0 to |batch|
        invariant Valid()
        invariant trace == old(trace) + plan[..i]
      {
        CommitOffset(batch[i].place);
      }
    }

    /** Usage events, completion events and commits, in that order. */
    method Succeed(batch: seq<Msg>)
      requires Valid()
      modifies this
      ensures Valid() && trace == old(trace) + Success(batch)
    {
      var tenants, sizes := CountByTenant(batch);
      ghost var before := trace;
      PublishUsage(batch, tenants, sizes);
      ghost var a := UsageEvents(tenants, TenantsOfBatch(batch));
      assert trace == before + a;
      PublishEmbedded(batch);
      ghost var b := EmbeddedEvents(batch);
      assert trace == before + a + b;
      CommitAll(batch);
      assert trace == before + a + b + Commits(batch);
      Associate(before, a, b, Commits(batch));
    }

    /** embed_batch with its one retry. */
    method EmbedWithRetry(env: Env) returns (result: EmbedResult)
      ensures result == Embed(env)
    {
      result := Nothing;
      var attempt := 0;
      while attempt < 2
        invariant attempt <= 2
        invariant attempt >= 1 ==> !env.first.Vectors? && !env.first.NoVectors?
        invariant attempt == 2 ==> result == Embed(env)
      {
        match if attempt == 0 then env.first else env.second {
          case Vectors(vs) => return Got(vs);
          case NoVectors => return Nothing;
          case RateLimited =>
            if attempt == 1 {
              result := GaveUp(EmbeddingRateLimit);
            }
          case EmbedFailed =>
            if attempt == 1 {
              result := GaveUp(EmbeddingError);
            }
        }
        attempt := attempt + 1;
      }
    }

    method ProcessBatch(batch: seq<Msg>, env: Env)
      requires Valid()
      modifies this, milvus
      ensures Valid() && trace == old(trace) + Plan(batch, env)
    {
      if |batch| == 0 {
        return;
      }
      var result := EmbedWithRetry(env);
      if result.GaveUp? {
        SendAllToDlq(batch, result.reason);
        return;
      }
      if result.Nothing? {
        return;
      }
      var rows := RowsOf(batch, result.vs);
      var tenants, groups := GroupByTenant(rows);
      ghost var before := trace;
      var failed := WriteGroups(batch, rows, tenants, groups, env);
      ghost var writes := Writes(batch, rows, tenants, 0, env);
      if failed {
        assert Plan(batch, env) == writes;
        return;
      }
      Succeed(batch);
      assert Plan(batch, env) == writes + Success(batch);
      assert trace == before + writes + Success(batch);
      Associate(before, writes, Success(batch), []);
    }

    /** One upsert per tenant; the first failure sends the whole batch to the DLQ. */
    method WriteGroups(batch: seq<Msg>, rows: seq<Row>, tenants: seq<string>, groups: map<string, seq<Row>>, env: Env)
      returns (failed: bool)
      requires Valid()
      requires forall t :: t in tenants ==> t in groups && groups[t] == RowsFor(rows, t)
      modifies this, milvus
      ensures Valid()
      ensures failed == !AllWritten(tenants, env)
      ensures trace == old(trace) + Writes(batch, rows, tenants, 0, env)
    {
      failed := false;
      var i := 0;
      while i < |tenants|
        invariant i <= |tenants|
        invariant Valid()
        invariant forall j :: 0 <= j < i ==> UpsertResult(env, tenants[j]) == UpsertOk
        invariant old(trace) + Writes(batch, rows, tenants, 0, env) == trace + Writes(batch, rows, tenants, i, env)
      {
        var outcome := UpsertResult(env, tenants[i]);
        if outcome != FailedBefore {
          WriteGroup(tenants[i], groups[tenants[i]]);
        }
        if outcome != UpsertOk {
          SendAllToDlq(batch, MilvusError);
          return true;
        }
        i := i + 1;
      }
    }
  }
}
