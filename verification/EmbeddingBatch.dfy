/**
 What the plan of a batch means: every message is accounted for exactly once, rows stay with
 their tenant, and nothing is committed before everything is stored.
 */
module EmbeddingBatch {
  import opened Events
  import opened Milvus
  import opened Options
  import opened EmbeddingWorker

  // ---- The groups partition the rows ----

  function Flatten(rows: seq<Row>, tenants: seq<string>): seq<Row> {
    if |tenants| == 0 then []
    else Flatten(rows, tenants[..|tenants| - 1]) + RowsFor(rows, tenants[|tenants| - 1])
  }

  lemma CountSnoc<T>(s: seq<T>, last: T, x: T)
    ensures multiset(s + [last])[x] == multiset(s)[x] + if last == x then 1 else 0
  {}

  lemma {:induction false} GroupCount(rows: seq<Row>, tenant: string, x: Row)
    ensures multiset(RowsFor(rows, tenant))[x] == if x.tenant == tenant then multiset(rows)[x] else 0
  {
    if |rows| == 0 {
    } else {
      var most, last := rows[..|rows| - 1], rows[|rows| - 1];
      GroupCount(most, tenant, x);
      CountSnoc(most, last, x);
      CountSnoc(RowsFor(most, tenant), last, x);
      assert rows == most + [last];
      if last.tenant != tenant {
        assert RowsFor(rows, tenant) == RowsFor(most, tenant);
      }
    }
  }

  lemma {:induction false} FlattenCount(rows: seq<Row>, tenants: seq<string>, x: Row)
    requires forall i, j :: 0 <= i < j < |tenants| ==> tenants[i] != tenants[j]
    ensures multiset(Flatten(rows, tenants))[x] == if x.tenant in tenants then multiset(rows)[x] else 0
  {
    if |tenants| == 0 {
    } else {
      var n := |tenants| - 1;
      FlattenCount(rows, tenants[..n], x);
      GroupCount(rows, tenants[n], x);
      assert tenants == tenants[..n] + [tenants[n]];
    }
  }

  /** Every row lands in exactly one group, as often as it occurs in the batch. */
  lemma GroupsPartitionRows(rows: seq<Row>)
    ensures multiset(Flatten(rows, Distinct(TenantsOf(rows)))) == multiset(rows)
  {
    var tenants := Distinct(TenantsOf(rows));
    forall x: Row
      ensures multiset(Flatten(rows, tenants))[x] == multiset(rows)[x]
    {
      FlattenCount(rows, tenants, x);
      if x in rows {
        var i :| 0 <= i < |rows| && rows[i] == x;
        assert TenantsOf(rows)[i] in tenants;
      }
    }
  }

  // ---- The usage batch sizes sum to the batch length ----

  function SumCounts(ts: seq<string>, tenants: seq<string>): nat {
    if |tenants| == 0 then 0
    else SumCounts(ts, tenants[..|tenants| - 1]) + Count(ts, tenants[|tenants| - 1])
  }

  lemma {:induction false} SumCountsStep(ts: seq<string>, t: string, tenants: seq<string>)
    requires forall i, j :: 0 <= i < j < |tenants| ==> tenants[i] != tenants[j]
    ensures SumCounts(ts + [t], tenants) == SumCounts(ts, tenants) + if t in tenants then 1 else 0
  {
    if |tenants| == 0 {
    } else {
      var n := |tenants| - 1;
      SumCountsStep(ts, t, tenants[..n]);
      assert tenants == tenants[..n] + [tenants[n]];
      assert (ts + [t])[..|ts|] == ts;
    }
  }

  lemma {:induction false} SumCountsEmpty(tenants: seq<string>)
    ensures SumCounts([], tenants) == 0
  {
    if |tenants| == 0 {
    } else {
      SumCountsEmpty(tenants[..|tenants| - 1]);
    }
  }

  lemma {:induction false} SumCountsAll(ts: seq<string>, tenants: seq<string>)
    requires forall i, j :: 0 <= i < j < |tenants| ==> tenants[i] != tenants[j]
    requires forall t :: t in ts ==> t in tenants
    ensures SumCounts(ts, tenants) == |ts|
  {
    if |ts| == 0 {
      SumCountsEmpty(tenants);
    } else {
      var n := |ts| - 1;
      SumCountsAll(ts[..n], tenants);
      SumCountsStep(ts[..n], ts[n], tenants);
      assert ts == ts[..n] + [ts[n]];
    }
  }

  // ---- Picking out one kind of effect ----

  function Select<T>(p: seq<Effect>, f: Effect -> Option<T>): seq<T> {
    if |p| == 0 then []
    else Select(p[..|p| - 1], f) + match f(p[|p| - 1]) case Some(x) => [x] case None => []
  }

  lemma {:induction false} SelectConcat<T>(a: seq<Effect>, b: seq<Effect>, f: Effect -> Option<T>)
    ensures Select(a + b, f) == Select(a, f) + Select(b, f)
  {
    if |b| == 0 {
      assert a + b == a;
    } else {
      var ab, n := a + b, |b| - 1;
      SelectConcat(a, b[..n], f);
      assert ab[..|ab| - 1] == a + b[..n] && ab[|ab| - 1] == b[n];
      var tail := match f(b[n]) case Some(x) => [x] case None => [];
      assert Select(a, f) + (Select(b[..n], f) + tail) == Select(a, f) + Select(b[..n], f) + tail;
    }
  }

  lemma {:induction false} SelectNone<T>(p: seq<Effect>, f: Effect -> Option<T>)
    requires forall e :: e in p ==> f(e) == None
    ensures Select(p, f) == []
  {
    if |p| == 0 {
    } else {
      SelectNone(p[..|p| - 1], f);
    }
  }

  lemma {:induction false} SelectAll<T>(p: seq<Effect>, f: Effect -> Option<T>, xs: seq<T>)
    requires |p| == |xs| && forall i :: 0 <= i < |p| ==> f(p[i]) == Some(xs[i])
    ensures Select(p, f) == xs
  {
    if |p| == 0 {
    } else {
      SelectAll(p[..|p| - 1], f, xs[..|p| - 1]);
      assert xs == xs[..|p| - 1] + [xs[|p| - 1]];
    }
  }

  function DlqPlace(e: Effect): Option<Place> {
    if e.Dlq? then Some(e.place) else None
  }

  function CommitPlace(e: Effect): Option<Place> {
    if e.Commit? then Some(e.place) else None
  }

  function EmbeddedChunk(e: Effect): Option<ChunkEvent> {
    if e.Embedded? then Some(e.chunk) else None
  }

  function UsageSize(e: Effect): Option<nat> {
    if e.Usage? then Some(e.batchSize) else None
  }

  function GroupWritten(e: Effect): Option<Effect> {
    if e.Upsert? then Some(e) else None
  }

  function Places(batch: seq<Msg>): seq<Place> {
    seq(|batch|, i requires 0 <= i < |batch| => batch[i].place)
  }

  function ChunksOf(batch: seq<Msg>): seq<ChunkEvent> {
    seq(|batch|, i requires 0 <= i < |batch| => batch[i].chunk)
  }

  function Sum(ns: seq<nat>): nat {
    if |ns| == 0 then 0 else Sum(ns[..|ns| - 1]) + ns[|ns| - 1]
  }

  // ---- The shape of a plan ----

  predicate Succeeds(batch: seq<Msg>, env: Env) {
    var r := Embed(env);
    r.Got? && AllWritten(Distinct(TenantsOf(RowsOf(batch, r.vs))), env)
  }

  predicate Fails(batch: seq<Msg>, env: Env) {
    !Embed(env).Nothing? && !Succeeds(batch, env)
  }

  /** An upsert of exactly the tenant's rows, in batch order. */
  ghost predicate IsGroupWrite(e: Effect, rows: seq<Row>) {
    e.Upsert? && e.rows == RowsFor(rows, e.tenant)
  }

  ghost predicate OkFrom(tenants: seq<string>, i: nat, env: Env) {
    forall j :: i <= j < |tenants| ==> UpsertResult(env, tenants[j]) == UpsertOk
  }

  /** The writes of the groups of tenants i.. up to, but not including, tenant n. */
  function GroupWrites(rows: seq<Row>, tenants: seq<string>, i: nat, n: nat): (p: seq<Effect>)
    requires i <= n <= |tenants|
    ensures |p| == n - i
    ensures forall j :: i <= j < n ==> p[j - i] == Upsert(tenants[j], RowsFor(rows, tenants[j]))
  {
    seq(n - i, j requires 0 <= j < n - i => Upsert(tenants[i + j], RowsFor(rows, tenants[i + j])))
  }

  lemma GroupWritesFrom(rows: seq<Row>, tenants: seq<string>, i: nat, n: nat, rest: seq<Effect>)
    requires i <= n <= |tenants|
    ensures i == n ==> GroupWrites(rows, tenants, i, n) == [] && [] + rest == rest
    ensures i < n ==>
              var e := Upsert(tenants[i], RowsFor(rows, tenants[i]));
              && GroupWrites(rows, tenants, i, n) == [e] + GroupWrites(rows, tenants, i + 1, n)
              && GroupWrites(rows, tenants, i, n) + rest == [e] + (GroupWrites(rows, tenants, i + 1, n) + rest)
  {
    if i < n {
      var p := GroupWrites(rows, tenants, i, n);
      var tail := GroupWrites(rows, tenants, i + 1, n);
      assert p[0] == Upsert(tenants[i], RowsFor(rows, tenants[i]));
      assert forall m :: 0 <= m < |tail| ==> tail[m] == p[m + 1];
      assert p == [p[0]] + tail;
    }
  }

  /** Where the writes of tenants i.. stop: behind the last tenant whose rows were written. */
  function Landed(tenants: seq<string>, i: nat, env: Env): (n: nat)
    requires i <= |tenants|
    ensures i <= n <= |tenants|
    decreases |tenants| - i
  {
    if i == |tenants| then i
    else
      match UpsertResult(env, tenants[i])
      case UpsertOk => Landed(tenants, i + 1, env)
      case FailedBefore => i
      case FailedAfter => i + 1
  }

  /** The first tenant whose write raises. */
  ghost predicate FirstFailing(tenants: seq<string>, env: Env, k: nat) {
    && k < |tenants| && UpsertResult(env, tenants[k]) != UpsertOk
    && forall j :: 0 <= j < k ==> UpsertResult(env, tenants[j]) == UpsertOk
  }

  /** How many groups are written when tenant k is the first to fail. */
  function WrittenUpTo(tenants: seq<string>, env: Env, k: nat): nat
    requires k < |tenants|
  {
    if UpsertResult(env, tenants[k]) == FailedAfter then k + 1 else k
  }

  /**
   All groups before the first failing tenant are written, and that tenant's own if its rows were in before the flush
   raised.
   */
  lemma {:induction false} LandedMeans(tenants: seq<string>, i: nat, env: Env)
    requires i <= |tenants| && forall j :: 0 <= j < i ==> UpsertResult(env, tenants[j]) == UpsertOk
    ensures OkFrom(tenants, i, env) ==> Landed(tenants, i, env) == |tenants|
    ensures !OkFrom(tenants, i, env) ==>
              exists k: nat :: FirstFailing(tenants, env, k)
                && Landed(tenants, i, env) == WrittenUpTo(tenants, env, k)
    decreases |tenants| - i
  {
    if i == |tenants| {
    } else if UpsertResult(env, tenants[i]) == UpsertOk {
      LandedMeans(tenants, i + 1, env);
    } else {
      assert FirstFailing(tenants, env, i);
    }
  }

  /** Writes stop at the first failing tenant: upserts first, then, on a failure, one envelope per message. */
  lemma {:induction false} WritesShape(batch: seq<Msg>, rows: seq<Row>, tenants: seq<string>, i: nat, env: Env)
    requires i <= |tenants|
    ensures var upserts := GroupWrites(rows, tenants, i, Landed(tenants, i, env));
            Writes(batch, rows, tenants, i, env) ==
            if OkFrom(tenants, i, env) then upserts else upserts + DlqAll(batch, MilvusError)
    decreases |tenants| - i
  {
    if i == |tenants| {
    } else {
      GroupWritesFrom(rows, tenants, i, Landed(tenants, i, env), DlqAll(batch, MilvusError));
      if UpsertResult(env, tenants[i]) == UpsertOk {
        WritesShape(batch, rows, tenants, i + 1, env);
        assert OkFrom(tenants, i, env) <==> OkFrom(tenants, i + 1, env);
      } else {
        assert !OkFrom(tenants, i, env);
      }
    }
  }

  lemma OkIsAllWritten(tenants: seq<string>, env: Env)
    ensures OkFrom(tenants, 0, env) <==> AllWritten(tenants, env)
  {
    if AllWritten(tenants, env) {
      forall j | 0 <= j < |tenants|
        ensures UpsertResult(env, tenants[j]) == UpsertOk
      {
        assert tenants[j] in tenants;
      }
    }
  }

  /** Every tenant of the rows has had its group written. */
  ghost predicate AllGroupsIn(upserts: seq<Effect>, rows: seq<Row>) {
    forall i :: 0 <= i < |rows| ==> Upsert(rows[i].tenant, RowsFor(rows, rows[i].tenant)) in upserts
  }

  lemma AllTenantsAllGroups(rows: seq<Row>, tenants: seq<string>, upserts: seq<Effect>)
    requires tenants == Distinct(TenantsOf(rows))
    requires forall j :: 0 <= j < |tenants| ==> Upsert(tenants[j], RowsFor(rows, tenants[j])) in upserts
    ensures AllGroupsIn(upserts, rows)
  {
    forall i | 0 <= i < |rows|
      ensures Upsert(rows[i].tenant, RowsFor(rows, rows[i].tenant)) in upserts
    {
      assert TenantsOf(rows)[i] in tenants;
      var j :| 0 <= j < |tenants| && tenants[j] == rows[i].tenant;
    }
  }

  /** The upserts a batch performs: none without vectors, else the groups up to the first failure. */
  function Upserts(batch: seq<Msg>, env: Env): seq<Effect> {
    var r := Embed(env);
    if !r.Got? then []
    else
      var rows := RowsOf(batch, r.vs);
      var tenants := Distinct(TenantsOf(rows));
      GroupWrites(rows, tenants, 0, Landed(tenants, 0, env))
  }

  /** The plan of a batch: upserts, each with its own tenant's rows only, then one of three endings. */
  lemma PlanShape(batch: seq<Msg>, env: Env) returns (upserts: seq<Effect>, rest: seq<Effect>)
    requires |batch| > 0
    ensures Plan(batch, env) == upserts + rest && upserts == Upserts(batch, env)
    ensures Embed(env).Nothing? ==> upserts == [] && rest == []
    ensures !Embed(env).Got? ==> upserts == []
    ensures Embed(env).Got? ==> forall e :: e in upserts ==> IsGroupWrite(e, RowsOf(batch, Embed(env).vs))
    ensures Fails(batch, env) ==> exists reason :: rest == DlqAll(batch, reason)
    ensures Succeeds(batch, env) ==> rest == Success(batch) && AllGroupsIn(upserts, RowsOf(batch, Embed(env).vs))
  {
    upserts := Upserts(batch, env);
    match Embed(env) {
      case Nothing => rest := [];
      case GaveUp(reason) => rest := DlqAll(batch, reason);
      case Got(vs) =>
        var tenants := Distinct(TenantsOf(RowsOf(batch, vs)));
        OkIsAllWritten(tenants, env);
        WritesShape(batch, RowsOf(batch, vs), tenants, 0, env);
        if AllWritten(tenants, env) {
          rest := Success(batch);
          LandedMeans(tenants, 0, env);
          AllLanded(RowsOf(batch, vs));
        } else {
          rest := DlqAll(batch, MilvusError);
        }
    }
  }

  lemma AllLanded(rows: seq<Row>)
    ensures var tenants := Distinct(TenantsOf(rows)); AllGroupsIn(GroupWrites(rows, tenants, 0, |tenants|), rows)
  {
    var tenants := Distinct(TenantsOf(rows));
    var upserts := GroupWrites(rows, tenants, 0, |tenants|);
    forall j | 0 <= j < |tenants| ensures Upsert(tenants[j], RowsFor(rows, tenants[j])) in upserts {
      assert upserts[j] == Upsert(tenants[j], RowsFor(rows, tenants[j]));
    }
    AllTenantsAllGroups(rows, tenants, upserts);
  }

  /**
   Batch conservation. A batch that fails in embedding or in an upsert sends every message to the
   DLQ exactly once and commits and announces nothing; a batch that succeeds commits every message,
   in batch order, announces every chunk, sends nothing to the DLQ, and reports usage that
   adds up to the batch. Only a backend that returns None leaves a batch without any effect.
   */
  lemma BatchConservation(batch: seq<Msg>, env: Env)
    requires |batch| > 0
    ensures Fails(batch, env) ==>
              var p := Plan(batch, env);
              && Select(p, DlqPlace) == Places(batch)
              && Select(p, CommitPlace) == [] && Select(p, EmbeddedChunk) == [] && Select(p, UsageSize) == []
    ensures Succeeds(batch, env) ==>
              var p := Plan(batch, env);
              && Select(p, DlqPlace) == []
              && Select(p, CommitPlace) == Places(batch)
              && Select(p, EmbeddedChunk) == ChunksOf(batch)
              && Sum(Select(p, UsageSize)) == |batch|
    ensures Plan(batch, env) == [] <==> Embed(env).Nothing?
  {
    var upserts, rest := PlanShape(batch, env);
    UpsertsSelectNothing(upserts);
    SelectConcat(upserts, rest, DlqPlace);
    SelectConcat(upserts, rest, CommitPlace);
    SelectConcat(upserts, rest, EmbeddedChunk);
    SelectConcat(upserts, rest, UsageSize);
    if Fails(batch, env) {
      var reason :| rest == DlqAll(batch, reason);
      FailureSelects(batch, reason);
    } else if Succeeds(batch, env) {
      SuccessSelects(batch);
      SuccessUsage(batch);
      assert Select(Plan(batch, env), UsageSize) == Select(Success(batch), UsageSize);
    }
  }

  /**
   Which upserts a batch leaves behind. A batch with vectors writes one group per tenant, in order of first appearance:
   all of them when it succeeds; when it fails, those of the tenants before the first failing one, and of that one
   too if the rows were in before the flush raised. Without vectors nothing is written.
   */
  lemma UpsertsLeftBehind(batch: seq<Msg>, env: Env) returns (n: nat)
    requires |batch| > 0
    ensures !Embed(env).Got? ==> Select(Plan(batch, env), GroupWritten) == []
    ensures Embed(env).Got? ==>
              var rows := RowsOf(batch, Embed(env).vs);
              var tenants := Distinct(TenantsOf(rows));
              && n <= |tenants| && Select(Plan(batch, env), GroupWritten) == GroupWrites(rows, tenants, 0, n)
              && (Succeeds(batch, env) ==> n == |tenants|)
              && (Fails(batch, env) ==>
                  exists k: nat :: FirstFailing(tenants, env, k) && n == WrittenUpTo(tenants, env, k))
  {
    UpsertsSelected(batch, env);
    if Embed(env).Got? {
      var tenants := Distinct(TenantsOf(RowsOf(batch, Embed(env).vs)));
      n := Landed(tenants, 0, env);
      OkIsAllWritten(tenants, env);
      LandedMeans(tenants, 0, env);
    } else {
      n := 0;
    }
  }

  lemma UpsertsSelected(batch: seq<Msg>, env: Env)
    requires |batch| > 0
    ensures Select(Plan(batch, env), GroupWritten) == Upserts(batch, env)
  {
    var upserts, rest := PlanShape(batch, env);
    RestHasNoUpsert(batch, env, rest);
    SelectedInFront(upserts, rest);
  }

  lemma SelectedInFront(upserts: seq<Effect>, rest: seq<Effect>)
    requires forall e :: e in upserts ==> e.Upsert?
    requires forall e :: e in rest ==> !e.Upsert?
    ensures Select(upserts + rest, GroupWritten) == upserts
  {
    SelectConcat(upserts, rest, GroupWritten);
    SelectAll(upserts, GroupWritten, upserts);
    SelectNone(rest, GroupWritten);
    assert upserts + [] == upserts;
  }

  lemma FailureSelects(batch: seq<Msg>, reason: Reason)
    ensures var p := DlqAll(batch, reason);
            && Select(p, DlqPlace) == Places(batch)
            && Select(p, CommitPlace) == [] && Select(p, EmbeddedChunk) == [] && Select(p, UsageSize) == []
  {
    var p := DlqAll(batch, reason);
    SelectAll(p, DlqPlace, Places(batch));
    SelectNone(p, CommitPlace);
    SelectNone(p, EmbeddedChunk);
    SelectNone(p, UsageSize);
  }

  lemma UpsertsSelectNothing(upserts: seq<Effect>)
    requires forall e :: e in upserts ==> e.Upsert?
    ensures Select(upserts, DlqPlace) == []
    ensures Select(upserts, CommitPlace) == []
    ensures Select(upserts, EmbeddedChunk) == []
    ensures Select(upserts, UsageSize) == []
  {
    SelectNone(upserts, DlqPlace);
    SelectNone(upserts, CommitPlace);
    SelectNone(upserts, EmbeddedChunk);
    SelectNone(upserts, UsageSize);
  }

  lemma SuccessSelects(batch: seq<Msg>)
    ensures |Success(batch)| >= |batch|
    ensures Select(Success(batch), DlqPlace) == []
    ensures Select(Success(batch), CommitPlace) == Places(batch)
    ensures Select(Success(batch), EmbeddedChunk) == ChunksOf(batch)
  {
    var ts := TenantsOfBatch(batch);
    var u, b, c := UsageEvents(Distinct(ts), ts), EmbeddedEvents(batch), Commits(batch);
    UsageSelects(Distinct(ts), ts);
    EmbeddedSelects(batch);
    CommitSelects(batch);
    SelectConcat3(u, b, c, DlqPlace);
    SelectConcat3(u, b, c, CommitPlace);
    SelectConcat3(u, b, c, EmbeddedChunk);
  }

  lemma SuccessUsage(batch: seq<Msg>)
    ensures Sum(Select(Success(batch), UsageSize)) == |batch|
  {
    var ts := TenantsOfBatch(batch);
    var u, b, c := UsageEvents(Distinct(ts), ts), EmbeddedEvents(batch), Commits(batch);
    UsageSelects(Distinct(ts), ts);
    EmbeddedSelects(batch);
    CommitSelects(batch);
    SelectConcat3(u, b, c, UsageSize);
    assert Select(Success(batch), UsageSize) == Select(u, UsageSize);
    SumCountsAll(ts, Distinct(ts));
  }

  lemma SelectConcat3<T>(a: seq<Effect>, b: seq<Effect>, c: seq<Effect>, f: Effect -> Option<T>)
    ensures Select(a + b + c, f) == Select(a, f) + Select(b, f) + Select(c, f)
  {
    SelectConcat(a + b, c, f);
    SelectConcat(a, b, f);
  }

  lemma UsageSelects(tenants: seq<string>, ts: seq<string>)
    ensures var p := UsageEvents(tenants, ts);
            && Select(p, DlqPlace) == [] && Select(p, CommitPlace) == [] && Select(p, EmbeddedChunk) == []
            && Sum(Select(p, UsageSize)) == SumCounts(ts, tenants)
  {
    var p := UsageEvents(tenants, ts);
    SelectNone(p, DlqPlace);
    SelectNone(p, CommitPlace);
    SelectNone(p, EmbeddedChunk);
    var sizes: seq<nat> := seq(|tenants|, i requires 0 <= i < |tenants| => Count(ts, tenants[i]));
    SelectAll(p, UsageSize, sizes);
    SumIsSumCounts(ts, tenants, sizes);
  }

  lemma EmbeddedSelects(batch: seq<Msg>)
    ensures var p := EmbeddedEvents(batch);
            && Select(p, DlqPlace) == [] && Select(p, CommitPlace) == [] && Select(p, UsageSize) == []
            && Select(p, EmbeddedChunk) == ChunksOf(batch)
  {
    var p := EmbeddedEvents(batch);
    SelectNone(p, DlqPlace);
    SelectNone(p, CommitPlace);
    SelectNone(p, UsageSize);
    SelectAll(p, EmbeddedChunk, ChunksOf(batch));
  }

  lemma CommitSelects(batch: seq<Msg>)
    ensures var p := Commits(batch);
            && Select(p, DlqPlace) == [] && Select(p, EmbeddedChunk) == [] && Select(p, UsageSize) == []
            && Select(p, CommitPlace) == Places(batch)
  {
    var p := Commits(batch);
    SelectNone(p, DlqPlace);
    SelectNone(p, EmbeddedChunk);
    SelectNone(p, UsageSize);
    SelectAll(p, CommitPlace, Places(batch));
  }

  lemma {:induction false} SumIsSumCounts(ts: seq<string>, tenants: seq<string>, sizes: seq<nat>)
    requires |sizes| == |tenants|
    requires forall i :: 0 <= i < |sizes| ==> sizes[i] == Count(ts, tenants[i])
    ensures Sum(sizes) == SumCounts(ts, tenants)
  {
    if |sizes| == 0 {
    } else {
      SumIsSumCounts(ts, tenants[..|tenants| - 1], sizes[..|sizes| - 1]);
    }
  }

  /**
   Tenant isolation: a collection only ever receives rows of the tenant it is named after, and
   every row written is the row of a message of the batch, with the vector in its position.
   */
  lemma UpsertsStayWithTenant(batch: seq<Msg>, env: Env, e: Effect, r: Row)
    requires e in Plan(batch, env) && e.Upsert? && r in e.rows
    ensures r.tenant == e.tenant
    ensures Embed(env).Got?
    ensures exists i :: 0 <= i < |batch| && i < |Embed(env).vs| && r == RowOf(batch[i].chunk, Embed(env).vs[i])
  {
    UpsertsAreGroupWrites(batch, env, e);
    assert r in RowsOf(batch, Embed(env).vs);
  }

  lemma UpsertsAreGroupWrites(batch: seq<Msg>, env: Env, e: Effect)
    requires e in Plan(batch, env) && e.Upsert?
    ensures Embed(env).Got? && IsGroupWrite(e, RowsOf(batch, Embed(env).vs))
  {
    var upserts, rest := PlanShape(batch, env);
    RestHasNoUpsert(batch, env, rest);
    assert e in upserts;
  }

  lemma RestHasNoUpsert(batch: seq<Msg>, env: Env, rest: seq<Effect>)
    requires Embed(env).Nothing? ==> rest == []
    requires Fails(batch, env) ==> exists reason :: rest == DlqAll(batch, reason)
    requires Succeeds(batch, env) ==> rest == Success(batch)
    ensures forall e :: e in rest ==> !e.Upsert?
  {
    if Fails(batch, env) {
      var reason :| rest == DlqAll(batch, reason);
    } else if Succeeds(batch, env) {
      forall e | e in rest
        ensures !e.Upsert?
      {
        SuccessHasNoUpsert(batch, e);
      }
    }
  }

  lemma SuccessHasNoUpsert(batch: seq<Msg>, e: Effect)
    requires e in Success(batch)
    ensures !e.Upsert?
  {
    var ts := TenantsOfBatch(batch);
    assert e in UsageEvents(Distinct(ts), ts) || e in EmbeddedEvents(batch) || e in Commits(batch);
  }

  // ---- Nothing is committed before everything is stored ----

  /** If vectors are returned, one per text, and the vector of a text depends on the text alone. */
  ghost predicate Faithful(batch: seq<Msg>, env: Env, embed: string -> Vector) {
    match Embed(env)
    case Got(vs) => |vs| == |batch| && forall i :: 0 <= i < |vs| ==> vs[i] == embed(batch[i].chunk.text)
    case _ => true
  }

  /** The first k effects of a plan put the message's own row into its own tenant's collection. */
  ghost predicate StoredBy(p: seq<Effect>, k: nat, m: Msg, embed: string -> Vector)
    requires k <= |p|
  {
    exists j :: 0 <= j < k && p[j].Upsert? && p[j].tenant == m.chunk.tenant
             && RowOf(m.chunk, embed(m.chunk.text)) in p[j].rows
  }

  /** The first k effects of a plan send the message to the DLQ. */
  ghost predicate DlqBy(p: seq<Effect>, k: nat, m: Msg)
    requires k <= |p|
  {
    exists j :: 0 <= j < k && p[j].Dlq? && p[j].place == m.place
  }

  lemma SuccessStores(batch: seq<Msg>, env: Env, embed: string -> Vector, upserts: seq<Effect>, m: Msg)
    requires m in batch
    requires Faithful(batch, env, embed) && Succeeds(batch, env)
    requires AllGroupsIn(upserts, RowsOf(batch, Embed(env).vs))
    ensures StoredBy(upserts, |upserts|, m, embed)
  {
    var i :| 0 <= i < |batch| && batch[i] == m;
    var rows := RowsOf(batch, Embed(env).vs);
    assert rows[i] == RowOf(m.chunk, embed(m.chunk.text));
    assert rows[i] in RowsFor(rows, m.chunk.tenant);
    var e := Upsert(m.chunk.tenant, RowsFor(rows, m.chunk.tenant));
    assert e in upserts;
    var j :| 0 <= j < |upserts| && upserts[j] == e;
  }

  lemma StoredByLonger(p: seq<Effect>, k: nat, q: seq<Effect>, l: nat, m: Msg, embed: string -> Vector)
    requires k <= |p| && k <= l <= |q| && p[..k] == q[..k]
    requires StoredBy(p, k, m, embed)
    ensures StoredBy(q, l, m, embed)
  {
    var j :| 0 <= j < k && p[j].Upsert? && p[j].tenant == m.chunk.tenant
          && RowOf(m.chunk, embed(m.chunk.text)) in p[j].rows;
    assert q[j] == q[..k][j] == p[..k][j] == p[j];
  }

  /** Commits stand at the end of a success, in batch order. */
  lemma SuccessCommit(batch: seq<Msg>, k: nat) returns (i: nat)
    requires k < |Success(batch)| && Success(batch)[k].Commit?
    ensures i < |batch| && batch[i].place == Success(batch)[k].place
    ensures |batch| - i == |Success(batch)| - k
  {
    var ts := TenantsOfBatch(batch);
    var u, b, c := UsageEvents(Distinct(ts), ts), EmbeddedEvents(batch), Commits(batch);
    i := k - |u| - |b|;
    assert Success(batch)[k] == c[i];
  }

  /**
   The order of the effects is what makes a crash safe: in front of a commit stand the rows of
   the whole batch, and a plan carried out in full has stored or dead-lettered every message, unless the backend
   returned None.
   */
  lemma PlanCovers(batch: seq<Msg>, env: Env, embed: string -> Vector, k: nat)
    requires |batch| > 0 && Faithful(batch, env, embed)
    requires k <= |Plan(batch, env)|
    ensures k < |Plan(batch, env)| && Plan(batch, env)[k].Commit? ==>
              && (forall m :: m in batch ==> StoredBy(Plan(batch, env), k, m, embed))
              && exists m :: m in batch && m.place == Plan(batch, env)[k].place
    ensures k == |Plan(batch, env)| && !Embed(env).Nothing? ==>
              forall m :: m in batch ==> StoredBy(Plan(batch, env), k, m, embed) || DlqBy(Plan(batch, env), k, m)
  {
    var upserts, rest := PlanShape(batch, env);
    var p, n := Plan(batch, env), |upserts|;
    assert p[..n] == upserts && p[n..] == rest;
    NoCommitInUpserts(upserts, p);
    if Fails(batch, env) {
      FailurePlanCovers(batch, p, n, k);
    } else if Succeeds(batch, env) && k >= n {
      SuccessPlanCovers(batch, env, embed, p, n, k);
    }
  }

  lemma NoCommitInUpserts(upserts: seq<Effect>, p: seq<Effect>)
    requires forall e :: e in upserts ==> e.Upsert?
    requires upserts <= p
    ensures forall j :: 0 <= j < |upserts| ==> !p[j].Commit?
  {
    assert forall j :: 0 <= j < |upserts| ==> p[j] == upserts[j] && upserts[j] in upserts;
  }

  lemma SuccessPlanCovers(batch: seq<Msg>, env: Env, embed: string -> Vector, p: seq<Effect>, n: nat, k: nat)
    requires Faithful(batch, env, embed) && Succeeds(batch, env)
    requires n <= k <= |p| && p[n..] == Success(batch)
    requires AllGroupsIn(p[..n], RowsOf(batch, Embed(env).vs))
    ensures forall m :: m in batch ==> StoredBy(p, k, m, embed)
    ensures k < |p| && p[k].Commit? ==> exists m :: m in batch && m.place == p[k].place
  {
    forall m | m in batch
      ensures StoredBy(p, k, m, embed)
    {
      SuccessStores(batch, env, embed, p[..n], m);
      StoredByLonger(p[..n], n, p, k, m, embed);
    }
    if k < |p| && p[k].Commit? {
      assert p[k] == p[n..][k - n];
      var i := SuccessCommit(batch, k - n);
      assert batch[i] in batch;
    }
  }

  lemma FailurePlanCovers(batch: seq<Msg>, p: seq<Effect>, n: nat, k: nat)
    requires n <= |p| && k <= |p|
    requires forall j :: 0 <= j < n ==> !p[j].Commit?
    requires exists reason :: p[n..] == DlqAll(batch, reason)
    ensures k < |p| ==> !p[k].Commit?
    ensures k == |p| ==> forall m :: m in batch ==> DlqBy(p, k, m)
  {
    var reason :| p[n..] == DlqAll(batch, reason);
    assert forall j :: n <= j < |p| ==> p[j] == p[n..][j - n];
    if k == |p| {
      forall m | m in batch
        ensures DlqBy(p, k, m)
      {
        var i :| 0 <= i < |batch| && batch[i] == m;
        assert p[n + i] == Dlq(m.place, reason);
      }
    }
  }

  /**
   What the one-vector-per-text assumption is worth. A batch of distinct chunks that does not fail stores every message
   if and only if the backend returned vectors, and at least as many as there were texts. A batch that succeeds commits
   every message all the same; one whose backend returned None commits nothing and leaves nothing.
   */
  lemma StoresEveryMessageIff(batch: seq<Msg>, env: Env)
    requires |batch| > 0 && !Fails(batch, env)
    requires forall i, j :: 0 <= i < j < |batch| ==> batch[i].chunk.chunkId != batch[j].chunk.chunkId
    ensures Select(Plan(batch, env), CommitPlace) == if Embed(env).Got? then Places(batch) else []
    ensures (forall m :: m in batch ==> Written(Plan(batch, env), m))
            <==> Embed(env).Got? && |Embed(env).vs| >= |batch|
  {
    BatchConservation(batch, env);
    var p := Plan(batch, env);
    var upserts, rest := PlanShape(batch, env);
    if Embed(env).Nothing? {
      assert batch[0] in batch && !Written(p, batch[0]);
    } else if |Embed(env).vs| >= |batch| {
      forall m | m in batch
        ensures Written(p, m)
      {
        var i :| 0 <= i < |batch| && batch[i] == m;
        var rows := RowsOf(batch, Embed(env).vs);
        assert rows[i].tenant == m.chunk.tenant && rows[i] in RowsFor(rows, m.chunk.tenant);
        var e := Upsert(m.chunk.tenant, RowsFor(rows, m.chunk.tenant));
        assert e in upserts && e in p && rows[i] in e.rows;
      }
    } else {
      var m := batch[|Embed(env).vs|];
      if Written(p, m) {
        var e, r :| e in p && e.Upsert? && e.tenant == m.chunk.tenant && r in e.rows && r.chunkId == m.chunk.chunkId;
        UpsertsStayWithTenant(batch, env, e, r);
      }
      assert m in batch && !Written(p, m);
    }
  }

  /** Some upsert of the plan writes a row under the message's chunk id, in its tenant's collection. */
  ghost predicate Written(p: seq<Effect>, m: Msg) {
    exists e, r :: e in p && e.Upsert? && e.tenant == m.chunk.tenant && r in e.rows && r.chunkId == m.chunk.chunkId
  }
}
