/**
 The two stages together: doc-processor, chunk topic, embedding worker and vector store, with
 their steps interleaved in any order. Main results: whatever crashes, redeliveries and
 failures happen, each tenant collection is part of the one a single crash-free pass builds; what is
 missing is explained by a DLQ envelope; and a drained pipeline with empty DLQs is exact.
 */
module Delivery {
  import opened Events
  import opened Identity
  import opened Milvus
  import opened EmbeddingWorker
  import DP = DocProcessor
  import D = DocProcessorRuns
  import W = EmbeddingWorkerRuns

  /** The fixed surroundings of a run. */
  datatype Setting = Setting(cfg: DP.Config, raw: D.RawLog, embed: string -> Vector)

  /**
   What identity rests on: a collision-free hash, event ids without a colon (UUIDs), and one
   event per event id (a retried publish may put the same event on the topic twice).
   */
  ghost predicate ValidSetting(w: Setting) {
    && Injective(w.cfg.hash)
    && (forall at :: IsEvent(w.raw, at) ==> ':' !in EventAt(w.raw, at).eventId)
    && (forall a, b ::
          (IsEvent(w.raw, a) && IsEvent(w.raw, b) && EventAt(w.raw, a).eventId == EventAt(w.raw, b).eventId) ==>
            EventAt(w.raw, a) == EventAt(w.raw, b))
  }

  ghost predicate IsEvent(raw: D.RawLog, at: Place) {
    D.InLog(raw, at) && D.MessageAt(raw, at).Raw?
  }

  function EventAt(raw: D.RawLog, at: Place): RawEvent
    requires IsEvent(raw, at)
  {
    D.MessageAt(raw, at).event
  }

  datatype Sys = Sys(doc: D.State, worker: W.State)

  datatype Label =
    | Doc(d: D.Label)              // any doc-processor step but a publish
    | Publish(partition: nat)      // a chunk event becomes durable on the chunk topic
    | Foreign(partition: nat)      // somebody else writes an undecodable record
    | Worker(l: W.Label)           // any worker step

  const INIT := Sys(D.INIT, W.INIT)

  ghost predicate Publishing(s: D.State) {
    s.job.Some? && s.job.value.done < |s.job.value.plan| && s.job.value.plan[s.job.value.done].Publish?
  }

  ghost predicate Enabled(w: Setting, s: Sys, l: Label)
  {
    match l
    case Doc(d) => D.Enabled(w.cfg, w.raw, s.doc, d) && !(d.Perform? && Publishing(s.doc))
    case Publish(_) => Publishing(s.doc)
    case Foreign(_) => true
    case Worker(wl) => !wl.Append? && W.Enabled(w.embed, s.worker, wl)
  }

  ghost function Next(w: Setting, s: Sys, l: Label): Sys
    requires Enabled(w, s, l)
  {
    match l
    case Doc(d) => s.(doc := D.Next(w.cfg, w.raw, s.doc, d))
    case Publish(p) =>
      var c := s.doc.job.value.plan[s.doc.job.value.done].chunk;
      Sys(D.Next(w.cfg, w.raw, s.doc, D.Perform), W.Next(w.embed, s.worker, W.Append(p, ChunkMsg(c))))
    case Foreign(p) => s.(worker := W.Next(w.embed, s.worker, W.Append(p, ChunkGarbage)))
    case Worker(wl) => s.(worker := W.Next(w.embed, s.worker, wl))
  }

  ghost predicate IsRun(w: Setting, states: seq<Sys>, labels: seq<Label>)
  {
    && |states| == |labels| + 1 && states[0] == INIT
    && forall i :: 0 <= i < |labels| ==>
        Enabled(w, states[i], labels[i]) && states[i + 1] == Next(w, states[i], labels[i])
  }

  // ---- The invariant ----

  /** The worker reads exactly what the doc-processor published. */
  ghost predicate Linked(s: Sys) {
    forall c :: c in s.doc.topics.out <==> W.Logged(s.worker.log, c)
  }

  ghost predicate Inv(w: Setting, s: Sys)
  {
    D.Inv(w.cfg, w.raw, s.doc) && W.Inv(w.embed, s.worker) && Linked(s)
  }

  lemma AppendLogs(embed: string -> Vector, s: W.State, p: nat, msg: ChunkMessage)
    ensures var t := W.Next(embed, s, W.Append(p, msg));
            forall c :: W.Logged(t.log, c) <==> W.Logged(s.log, c) || msg == ChunkMsg(c)
  {
    var t := W.Next(embed, s, W.Append(p, msg));
    var here := Place(p, |W.Records(s.log, p)|);
    assert W.InLog(t.log, here) && W.MessageAt(t.log, here) == msg;
    W.NextGrows(embed, s, W.Append(p, msg));
    forall c
      ensures W.Logged(t.log, c) <==> W.Logged(s.log, c) || msg == ChunkMsg(c)
    {
      if W.Logged(s.log, c) {
        W.LoggedGrows(s.log, t.log, c);
      }
      if W.Logged(t.log, c) {
        var at :| W.InLog(t.log, at) && W.MessageAt(t.log, at) == ChunkMsg(c);
        if at != here {
          assert W.InLog(s.log, at) && W.MessageAt(s.log, at) == ChunkMsg(c);
        }
      }
    }
  }

  lemma DocKeepsOut(w: Setting, s: D.State, d: D.Label)
    requires D.Enabled(w.cfg, w.raw, s, d) && !(d.Perform? && Publishing(s))
    ensures D.Next(w.cfg, w.raw, s, d).topics.out == s.topics.out
  {}

  lemma WorkerKeepsLog(embed: string -> Vector, s: W.State, l: W.Label)
    requires W.Enabled(embed, s, l) && !l.Append?
    ensures W.Next(embed, s, l).log == s.log
  {}

  lemma NextKeepsLink(w: Setting, s: Sys, l: Label)
    requires Linked(s) && Enabled(w, s, l)
    ensures Linked(Next(w, s, l))
  {
    match l {
      case Doc(d) => DocKeepsOut(w, s.doc, d);
      case Publish(p) =>
        AppendLogs(w.embed, s.worker, p, ChunkMsg(s.doc.job.value.plan[s.doc.job.value.done].chunk));
      case Foreign(p) => AppendLogs(w.embed, s.worker, p, ChunkGarbage);
      case Worker(wl) => WorkerKeepsLog(w.embed, s.worker, wl);
    }
  }

  lemma NextKeepsInv(w: Setting, s: Sys, l: Label)
    requires Inv(w, s) && Enabled(w, s, l)
    ensures Inv(w, Next(w, s, l))
  {
    NextKeepsLink(w, s, l);
    match l {
      case Doc(d) =>
        D.NextKeepsInv(w.cfg, w.raw, s.doc, d);
      case Publish(p) =>
        D.NextKeepsInv(w.cfg, w.raw, s.doc, D.Perform);
        W.NextKeepsInv(w.embed, s.worker, W.Append(p, ChunkMsg(s.doc.job.value.plan[s.doc.job.value.done].chunk)));
      case Foreign(p) =>
        W.NextKeepsInv(w.embed, s.worker, W.Append(p, ChunkGarbage));
      case Worker(wl) =>
        W.NextKeepsInv(w.embed, s.worker, wl);
    }
  }

  lemma {:induction false} RunInv(w: Setting, states: seq<Sys>, labels: seq<Label>, i: nat)
    requires IsRun(w, states, labels) && i < |states|
    ensures Inv(w, states[i])
  {
    if i == 0 {
      D.InitInv(w.cfg, w.raw);
    } else {
      RunInv(w, states, labels, i - 1);
      NextKeepsInv(w, states[i - 1], labels[i - 1]);
    }
  }

  // ---- Identity of chunks ----

  /** Chunks of the log with one chunk id are one chunk, whenever and however often they were published. */
  lemma ChunkIdentity(w: Setting, c: ChunkEvent, d: ChunkEvent)
    requires ValidSetting(w) && D.Genuine(w.cfg, w.raw, c) && D.Genuine(w.cfg, w.raw, d)
    requires c.chunkId == d.chunkId
    ensures SameChunk(c, d)
  {
    var a, i :| D.ChunkOfMessage(w.cfg, w.raw, a, i, c);
    var b, j :| D.ChunkOfMessage(w.cfg, w.raw, b, j, d);
    SameEvent(w, a, i, b, j);
  }

  /** One chunk id comes from one event and one position in it. */
  lemma SameEvent(w: Setting, a: Place, i: nat, b: Place, j: nat)
    requires ValidSetting(w) && IsEvent(w.raw, a) && IsEvent(w.raw, b)
    requires ChunkId(DP.DocId(w.cfg, EventAt(w.raw, a)), i) == ChunkId(DP.DocId(w.cfg, EventAt(w.raw, b)), j)
    ensures EventAt(w.raw, a) == EventAt(w.raw, b) && i == j
  {
    var e, f := EventAt(w.raw, a), EventAt(w.raw, b);
    ChunkIdInjective(DP.DocId(w.cfg, e), i, DP.DocId(w.cfg, f), j);
    DocIdFollowsEventId(w.cfg.hash, e.sourceType, e.sourceId, f.sourceType, f.sourceId, e.eventId, f.eventId);
  }

  lemma LogIsConsistent(w: Setting, s: Sys)
    requires ValidSetting(w) && Inv(w, s)
    ensures W.Consistent(s.worker.log)
  {
    forall c, d | W.Logged(s.worker.log, c) && W.Logged(s.worker.log, d) && c.tenant == d.tenant
        && c.chunkId == d.chunkId
      ensures SameChunk(c, d)
    {
      ChunkIdentity(w, c, d);
    }
  }

  /**
   Commit safety of the worker behind the doc-processor: each offset of the chunk topic below a committed mark was
   undecodable, has an envelope, was in a batch without vectors, or has its own row, up to the time stamp. That chunks
   with one id are one chunk, which the worker alone has to assume, is here a fact.
   */
  lemma CommittedChunksAreSafe(w: Setting, states: seq<Sys>, labels: seq<Label>, i: nat, at: Place)
    requires ValidSetting(w) && IsRun(w, states, labels) && i < |states|
    requires at.offset < At(states[i].worker.world.committed, at.partition)
    ensures var s := states[i].worker;
            W.InLog(s.log, at) &&
            (W.MessageAt(s.log, at).ChunkGarbage? || W.InDlq(s, at) || at in s.skipped ||
             var c := W.MessageAt(s.log, at).event;
             && W.Has(s.world.store, c.tenant, c.chunkId)
             && Stamped(s.world.store[CollectionName(c.tenant)][c.chunkId]) == Stamped(RowOf(c, w.embed(c.text))))
  {
    RunInv(w, states, labels, i);
    LogIsConsistent(w, states[i]);
    var s := states[i].worker;
    assert W.Covered(s, at);
    if W.MessageAt(s.log, at).ChunkMsg? && !W.InDlq(s, at) && at !in s.skipped {
      var c := W.MessageAt(s.log, at).event;
      assert W.Logged(s.log, c);
      W.OwnRow(w.embed, s, c);
    }
  }

  // ---- The reference: one crash-free pass ----

  function RowsOfDoc(w: Setting, e: RawEvent): (rows: seq<Row>)
    ensures |rows| == |DP.ChunkEvents(w.cfg, e, 0)|
    ensures forall i :: 0 <= i < |rows| ==>
              var c := DP.ChunkEvents(w.cfg, e, 0)[i]; rows[i] == RowOf(c, w.embed(c.text))
  {
    var es := DP.ChunkEvents(w.cfg, e, 0);
    seq(|es|, i requires 0 <= i < |es| => RowOf(es[i], w.embed(es[i].text)))
  }

  /** Document by document, each chunk's row written once; an undecodable or unparsable message has none. */
  function CleanPass(w: Setting, msgs: seq<RawMessage>): Store
  {
    if |msgs| == 0 then map[]
    else
      var before := CleanPass(w, msgs[..|msgs| - 1]);
      match msgs[|msgs| - 1]
      case RawGarbage => before
      case Raw(e) => UpsertInto(before, CollectionName(e.tenant), RowsOfDoc(w, e))
  }

  /** The list holds the messages of the raw topic, in any order. */
  ghost predicate Lists(raw: D.RawLog, msgs: seq<RawMessage>) {
    && (forall at :: D.InLog(raw, at) ==> D.MessageAt(raw, at) in msgs)
    && (forall m :: m in msgs ==> exists at :: D.InLog(raw, at) && D.MessageAt(raw, at) == m)
  }

  /** The entry belongs to a chunk of one of the messages. */
  ghost predicate EntryOf(w: Setting, msgs: seq<RawMessage>, name: string, id: string, r: Row)
  {
    exists e, i: nat :: Raw(e) in msgs && i < |RowsOfDoc(w, e)| && name == CollectionName(e.tenant)
                 && RowsOfDoc(w, e)[i].chunkId == id && r == RowsOfDoc(w, e)[i]
  }

  lemma {:induction false} CleanPassOrigin(w: Setting, msgs: seq<RawMessage>, name: string, id: string)
    requires name in CleanPass(w, msgs) && id in CleanPass(w, msgs)[name]
    ensures EntryOf(w, msgs, name, id, CleanPass(w, msgs)[name][id])
  {
    var n := |msgs| - 1;
    var before := CleanPass(w, msgs[..n]);
    assert msgs == msgs[..n] + [msgs[n]];
    if msgs[n].Raw? && name == CollectionName(msgs[n].event.tenant) && |RowsOfDoc(w, msgs[n].event)| > 0 {
      var e := msgs[n].event;
      var rows := RowsOfDoc(w, e);
      UpsertOrigin(Get(before, name), rows, id);
      if i: nat :| i < |rows| && rows[i].chunkId == id && CleanPass(w, msgs)[name][id] == rows[i] {
        assert Raw(e) in msgs;
        return;
      }
    }
    assert name in before && id in before[name] && before[name][id] == CleanPass(w, msgs)[name][id];
    CleanPassOrigin(w, msgs[..n], name, id);
    var e, i: nat :| Raw(e) in msgs[..n] && i < |RowsOfDoc(w, e)| && name == CollectionName(e.tenant)
                  && RowsOfDoc(w, e)[i].chunkId == id && before[name][id] == RowsOfDoc(w, e)[i];
    assert Raw(e) in msgs;
  }

  lemma {:induction false} CleanPassHolds(w: Setting, msgs: seq<RawMessage>, e: RawEvent, i: nat)
    requires Raw(e) in msgs && i < |RowsOfDoc(w, e)|
    ensures W.Has(CleanPass(w, msgs), e.tenant, RowsOfDoc(w, e)[i].chunkId)
  {
    var n := |msgs| - 1;
    assert msgs == msgs[..n] + [msgs[n]];
    var before := CleanPass(w, msgs[..n]);
    if msgs[n].Raw? {
      var rows := RowsOfDoc(w, msgs[n].event);
      UpsertKeys(Get(before, CollectionName(msgs[n].event.tenant)), rows);
      if msgs[n].event == e {
        assert rows[i].chunkId in Ids(rows);
        return;
      }
    }
    CleanPassHolds(w, msgs[..n], e, i);
  }

  /** The chunk an entry of the clean pass belongs to. */
  lemma PassEntry(w: Setting, msgs: seq<RawMessage>, name: string, id: string) returns (at: Place, k: nat)
    requires Lists(w.raw, msgs)
    requires name in CleanPass(w, msgs) && id in CleanPass(w, msgs)[name]
    ensures IsEvent(w.raw, at) && k < |RowsOfDoc(w, EventAt(w.raw, at))|
    ensures name == CollectionName(EventAt(w.raw, at).tenant)
    ensures RowsOfDoc(w, EventAt(w.raw, at))[k].chunkId == id
    ensures CleanPass(w, msgs)[name][id] == RowsOfDoc(w, EventAt(w.raw, at))[k]
  {
    CleanPassOrigin(w, msgs, name, id);
    var e;
    e, k :| Raw(e) in msgs && k < |RowsOfDoc(w, e)| && name == CollectionName(e.tenant)
         && RowsOfDoc(w, e)[k].chunkId == id && CleanPass(w, msgs)[name][id] == RowsOfDoc(w, e)[k];
    at :| D.InLog(w.raw, at) && D.MessageAt(w.raw, at) == Raw(e);
  }

  /** Every entry of a is in b, with the same row up to the time stamp. */
  ghost predicate PartOf(a: Store, b: Store) {
    forall name, id :: name in a && id in a[name] ==>
      name in b && id in b[name] && Stamped(a[name][id]) == Stamped(b[name][id])
  }

  // ---- Exactly-once effect ----

  /** A stored row is the row of one chunk of the raw topic. */
  lemma StoredRowIsGenuine(w: Setting, s: Sys, name: string, id: string) returns (at: Place, i: nat)
    requires ValidSetting(w) && Inv(w, s)
    requires name in s.worker.world.store && id in s.worker.world.store[name]
    ensures IsEvent(w.raw, at) && i < |RowsOfDoc(w, EventAt(w.raw, at))|
    ensures name == CollectionName(EventAt(w.raw, at).tenant)
    ensures RowsOfDoc(w, EventAt(w.raw, at))[i].chunkId == id
    ensures Stamped(s.worker.world.store[name][id]) == Stamped(RowsOfDoc(w, EventAt(w.raw, at))[i])
  {
    var r := s.worker.world.store[name][id];
    assert W.IsRowOfLog(w.embed, s.worker.log, name, id, r);
    var c :| W.Logged(s.worker.log, c) && name == CollectionName(c.tenant) && id == c.chunkId
        && r == RowOf(c, w.embed(c.text));
    assert D.Genuine(w.cfg, w.raw, c);
    at, i :| D.ChunkOfMessage(w.cfg, w.raw, at, i, c);
  }

  /** Two stored or reference rows under one chunk id belong to one collection and agree. */
  lemma RowsOfOneChunk(w: Setting, a: Place, i: nat, b: Place, j: nat)
    requires ValidSetting(w) && IsEvent(w.raw, a) && IsEvent(w.raw, b)
    requires i < |RowsOfDoc(w, EventAt(w.raw, a))| && j < |RowsOfDoc(w, EventAt(w.raw, b))|
    requires RowsOfDoc(w, EventAt(w.raw, a))[i].chunkId == RowsOfDoc(w, EventAt(w.raw, b))[j].chunkId
    ensures EventAt(w.raw, a) == EventAt(w.raw, b) && i == j
  {
    SameEvent(w, a, i, b, j);
  }

  lemma StoreIsPartOfPass(w: Setting, s: Sys, msgs: seq<RawMessage>)
    requires ValidSetting(w) && Inv(w, s) && Lists(w.raw, msgs)
    ensures PartOf(s.worker.world.store, CleanPass(w, msgs))
  {
    var store, pass := s.worker.world.store, CleanPass(w, msgs);
    forall name, id | name in store && id in store[name]
      ensures name in pass && id in pass[name] && Stamped(store[name][id]) == Stamped(pass[name][id])
    {
      var a, i := StoredRowIsGenuine(w, s, name, id);
      CleanPassHolds(w, msgs, EventAt(w.raw, a), i);
      var b, j := PassEntry(w, msgs, name, id);
      RowsOfOneChunk(w, a, i, b, j);
    }
  }

  /**
   Exactly-once effect, safety half. After any run, with crashes at any point, any batch boundaries and any
   embedding, upsert, publish and DLQ failures, every tenant collection is, up to time stamps, a
   part of the one a single crash-free pass over the raw topic builds, and a chunk id
   has at most one row in the whole store.
   */
  lemma ExactlyOnceEffect(w: Setting, states: seq<Sys>, labels: seq<Label>, i: nat, msgs: seq<RawMessage>)
    requires ValidSetting(w) && IsRun(w, states, labels) && i < |states| && Lists(w.raw, msgs)
    ensures PartOf(states[i].worker.world.store, CleanPass(w, msgs))
    ensures var store := states[i].worker.world.store;
            forall m, n, id :: m in store && n in store && id in store[m] && id in store[n] ==> m == n
  {
    RunInv(w, states, labels, i);
    StoreIsPartOfPass(w, states[i], msgs);
    var store := states[i].worker.world.store;
    forall m, n, id | m in store && n in store && id in store[m] && id in store[n]
      ensures m == n
    {
      var a, k := StoredRowIsGenuine(w, states[i], m, id);
      var b, l := StoredRowIsGenuine(w, states[i], n, id);
      RowsOfOneChunk(w, a, k, b, l);
    }
  }

  lemma {:induction false} StoreOnlyGrows(w: Setting, states: seq<Sys>, labels: seq<Label>, i: nat, j: nat)
    requires IsRun(w, states, labels) && i <= j < |states|
    ensures W.StoreGrows(states[i].worker.world.store, states[j].worker.world.store)
  {
    if i < j {
      StoreOnlyGrows(w, states, labels, i, j - 1);
      NextStoreGrows(w, states[j - 1], labels[j - 1]);
    }
  }

  lemma NextStoreGrows(w: Setting, s: Sys, l: Label)
    requires Enabled(w, s, l)
    ensures W.StoreGrows(s.worker.world.store, Next(w, s, l).worker.world.store)
  {
    match l {
      case Worker(wl) => W.NextGrows(w.embed, s.worker, wl);
      case _ =>
    }
  }

  /** Some state of the run up to i has a row for the chunk. */
  ghost predicate UpsertedBy(states: seq<Sys>, i: nat, name: string, id: string)
    requires i < |states|
  {
    exists j :: 0 <= j <= i && name in states[j].worker.world.store && id in states[j].worker.world.store[name]
  }

  /** Exactly-once effect, completeness half: once every chunk has been upserted at least once, nothing is missing. */
  lemma CompleteOnceUpserted(w: Setting, states: seq<Sys>, labels: seq<Label>, i: nat, msgs: seq<RawMessage>)
    requires ValidSetting(w) && IsRun(w, states, labels) && i < |states| && Lists(w.raw, msgs)
    requires var pass := CleanPass(w, msgs);
             forall name, id :: name in pass && id in pass[name] ==> UpsertedBy(states, i, name, id)
    ensures PartOf(states[i].worker.world.store, CleanPass(w, msgs))
    ensures PartOf(CleanPass(w, msgs), states[i].worker.world.store)
  {
    ExactlyOnceEffect(w, states, labels, i, msgs);
    var pass := CleanPass(w, msgs);
    forall name, id | name in pass && id in pass[name]
      ensures name in states[i].worker.world.store && id in states[i].worker.world.store[name]
    {
      assert UpsertedBy(states, i, name, id);
      var j: nat :| j <= i && name in states[j].worker.world.store && id in states[j].worker.world.store[name];
      StoreOnlyGrows(w, states, labels, j, i);
    }
  }

  // ---- A drained pipeline ----

  /** Both consumer groups have committed everything there is. */
  ghost predicate Drained(w: Setting, s: Sys) {
    && (forall p :: |D.Records(w.raw, p)| <= At(s.doc.topics.committed, p))
    && (forall p :: |W.Records(s.worker.log, p)| <= At(s.worker.world.committed, p))
  }

  /** Why a chunk of the message at `at` may be missing. */
  ghost predicate Explained(w: Setting, s: Sys, at: Place, id: string)
  {
    || D.InDlq(s.doc, at) || at in s.doc.dropped
    || exists place :: (W.InDlq(s.worker, place) || place in s.worker.skipped) && W.InLog(s.worker.log, place)
                    && W.MessageAt(s.worker.log, place).ChunkMsg?
                        && W.MessageAt(s.worker.log, place).event.chunkId == id
  }

  /**
   No silent loss. When both groups have committed everything, a chunk that the crash-free pass would store
   is stored, or its document is in the raw DLQ or had its DLQ write dropped, or its chunk message is in the
   chunk DLQ or was in a batch for which the backend returned None.
   */
  lemma MissingIsExplained(w: Setting, s: Sys, at: Place, i: nat)
    requires ValidSetting(w) && Inv(w, s) && Drained(w, s)
    requires IsEvent(w.raw, at) && i < |RowsOfDoc(w, EventAt(w.raw, at))|
    ensures var e := EventAt(w.raw, at);
            var id := RowsOfDoc(w, e)[i].chunkId;
            W.Has(s.worker.world.store, e.tenant, id) || Explained(w, s, at, id)
  {
    var e := EventAt(w.raw, at);
    var id := RowsOfDoc(w, e)[i].chunkId;
    assert D.AccountedOrDropped(w.cfg, w.raw, s.doc, at);
    if at !in s.doc.dropped && !D.InDlq(s.doc, at) {
      assert D.Emits(s.doc.topics.out, DP.ChunkEvents(w.cfg, e, 0)[i]);
      var k :| 0 <= k < |s.doc.topics.out| && SameChunk(s.doc.topics.out[k], DP.ChunkEvents(w.cfg, e, 0)[i]);
      var c := s.doc.topics.out[k];
      assert W.Logged(s.worker.log, c);
      var place :| W.InLog(s.worker.log, place) && W.MessageAt(s.worker.log, place) == ChunkMsg(c);
      assert W.Covered(s.worker, place);
    }
  }

  /**
   A drained pipeline is exact: when both groups have committed everything, no DLQ holds anything, no DLQ write was
   dropped and no batch was without vectors, the store is, up to time stamps, the one of a single crash-free pass.
   */
  lemma DrainedPipelineIsExact(w: Setting, states: seq<Sys>, labels: seq<Label>, i: nat, msgs: seq<RawMessage>)
    requires ValidSetting(w) && IsRun(w, states, labels) && i < |states| && Lists(w.raw, msgs)
    requires Drained(w, states[i])
    requires states[i].doc.topics.dlq == [] && states[i].doc.dropped == {}
    requires states[i].worker.world.dlq == [] && states[i].worker.skipped == {}
    ensures PartOf(states[i].worker.world.store, CleanPass(w, msgs))
    ensures PartOf(CleanPass(w, msgs), states[i].worker.world.store)
  {
    ExactlyOnceEffect(w, states, labels, i, msgs);
    RunInv(w, states, labels, i);
    var s, pass := states[i], CleanPass(w, msgs);
    forall name, id | name in pass && id in pass[name]
      ensures name in s.worker.world.store && id in s.worker.world.store[name]
    {
      DrainedHas(w, s, msgs, name, id);
    }
  }

  lemma DrainedHas(w: Setting, s: Sys, msgs: seq<RawMessage>, name: string, id: string)
    requires ValidSetting(w) && Inv(w, s) && Lists(w.raw, msgs) && Drained(w, s)
    requires s.doc.topics.dlq == [] && s.doc.dropped == {} && s.worker.world.dlq == [] && s.worker.skipped == {}
    requires name in CleanPass(w, msgs) && id in CleanPass(w, msgs)[name]
    ensures name in s.worker.world.store && id in s.worker.world.store[name]
  {
    var at, k := PassEntry(w, msgs, name, id);
    MissingIsExplained(w, s, at, k);
    NothingExplained(w, s, at, id);
  }

  lemma NothingExplained(w: Setting, s: Sys, at: Place, id: string)
    requires s.doc.topics.dlq == [] && s.doc.dropped == {} && s.worker.world.dlq == [] && s.worker.skipped == {}
    ensures !Explained(w, s, at, id)
  {}
}
