/**
 The metadata consumer never commits an offset, so every restart replays the whole topic. What
 that does to the store, for any log: the edges converge after two full passes, the entities
 after one, and only the quality rows keep growing.
 */
module Replay {
  import opened Options
  import opened Lineage

  // ---- What a log says, independently of any store ----

  /** The entity has an event in the log. */
  predicate Mentioned(log: seq<Event>, id: EntityId) {
    exists i :: 0 <= i < |log| && log[i].Created? && log[i].id == id
  }

  /** The event refers upstream along this edge. */
  predicate Declares(e: Event, edge: Edge) {
    e.Created? && exists k :: 0 <= k < |e.upstream| && e.upstream[k].Ref? && EdgeOf(e.id, e.upstream[k]) == edge
  }

  /** Some event declares the edge, at or after the first event of its upstream entity. */
  predicate DeclaredInOrder(log: seq<Event>, edge: Edge) {
    exists i :: 0 <= i < |log| && Declares(log[i], edge) && Mentioned(log[..i + 1], edge.up)
  }

  /** Some event declares the edge, and its upstream entity has an event anywhere in the log. */
  predicate Declared(log: seq<Event>, edge: Edge) {
    (exists i :: 0 <= i < |log| && Declares(log[i], edge)) && Mentioned(log, edge.up)
  }

  /** The attributes an event leaves behind. */
  function Effective(e: Event): Attributes
    requires e.Created?
  {
    if Failed(e.checks) == [] then e.attributes else e.attributes["quality_status" := "failed"]
  }

  /** The attributes left by the last event of an entity. */
  function LastAttributes(log: seq<Event>, id: EntityId): Option<Attributes> {
    if |log| == 0 then None
    else
      var e := log[|log| - 1];
      if e.Created? && e.id == id then Some(Effective(e)) else LastAttributes(log[..|log| - 1], id)
  }

  function QualityOf(log: seq<Event>): seq<QualityRow> {
    if |log| == 0 then []
    else
      var e := log[|log| - 1];
      QualityOf(log[..|log| - 1]) + if e.Created? then Rows(e.id, e.runId, e.checks) else []
  }

  // ---- One event ----

  lemma {:induction false} InsertEdgesEffect(s: Store, id: EntityId, refs: seq<Ref>, runId: Option<string>, edge: Edge)
    ensures var t := InsertEdges(s, id, refs, runId);
            && t.entities == s.entities && t.quality == s.quality && t.alerts == s.alerts
            && (edge in s.lineage ==> edge in t.lineage && t.lineage[edge] == s.lineage[edge])
            && (edge in t.lineage <==>
                  edge in s.lineage
                  || (edge.up in s.entities
                      && exists k :: 0 <= k < |refs| && refs[k].Ref? && EdgeOf(id, refs[k]) == edge))
  {
    if |refs| == 0 {
    } else {
      var n := |refs| - 1;
      InsertEdgesEffect(s, id, refs[..n], runId, edge);
      if k :| 0 <= k < n && refs[k].Ref? && EdgeOf(id, refs[k]) == edge {
        assert refs[..n][k] == refs[k];
      }
    }
  }

  lemma ApplyEffect(s: Store, e: Event, edge: Edge, id: EntityId)
    ensures var t := Apply(s, e);
            && (edge in s.lineage ==> edge in t.lineage && t.lineage[edge] == s.lineage[edge])
            && (edge in t.lineage <==>
                  edge in s.lineage || (Declares(e, edge) && (edge.up in s.entities || e.id == edge.up)))
            && (id in t.entities <==> id in s.entities || (e.Created? && e.id == id))
            && (e.Created? && e.id == id ==> t.entities[id].attributes == Effective(e))
            && (id in s.entities && !(e.Created? && e.id == id) ==> t.entities[id] == s.entities[id])
            && (id in s.entities ==>
                  t.entities[id].runId == s.entities[id].runId
                      && t.entities[id].schemaVersion == s.entities[id].schemaVersion)
            && t.quality == s.quality + if e.Created? then Rows(e.id, e.runId, e.checks) else []
  {
    if e.Created? {
      InsertEdgesEffect(UpsertEntity(s, e.id, e.attributes, e.runId, e.schemaVersion), e.id, e.upstream, e.runId, edge);
    }
  }

  // ---- A pass over a log ----

  lemma MentionedStep(log: seq<Event>, id: EntityId)
    requires |log| > 0
    ensures Mentioned(log, id) <==>
              Mentioned(log[..|log| - 1], id) || (log[|log| - 1].Created? && log[|log| - 1].id == id)
  {
    var n := |log| - 1;
    if i :| 0 <= i < n && log[i].Created? && log[i].id == id {
      assert log[..n][i] == log[i];
    }
  }

  lemma {:induction false} FoldEntityKeys(s: Store, log: seq<Event>, id: EntityId)
    ensures id in Fold(s, log).entities <==> id in s.entities || Mentioned(log, id)
  {
    if |log| == 0 {
    } else {
      var n := |log| - 1;
      FoldEntityKeys(s, log[..n], id);
      MentionedStep(log, id);
      ApplyEffect(Fold(s, log[..n]), log[n], Edge(id, id, ""), id);
    }
  }

  /** Last writer wins on attributes; the run and schema version of the first insert stay. */
  lemma {:induction false} FoldEntity(s: Store, log: seq<Event>, id: EntityId)
    requires id in Fold(s, log).entities
    ensures LastAttributes(log, id).Some? ==> Fold(s, log).entities[id].attributes == LastAttributes(log, id).value
    ensures LastAttributes(log, id).None? ==> id in s.entities && Fold(s, log).entities[id] == s.entities[id]
    ensures id in s.entities ==>
              && Fold(s, log).entities[id].runId == s.entities[id].runId
              && Fold(s, log).entities[id].schemaVersion == s.entities[id].schemaVersion
  {
    if |log| == 0 {
    } else {
      var n := |log| - 1;
      ApplyEffect(Fold(s, log[..n]), log[n], Edge(id, id, ""), id);
      if id in Fold(s, log[..n]).entities {
        FoldEntity(s, log[..n], id);
      } else if id in s.entities {
        FoldEntityKeys(s, log[..n], id);
      }
    }
  }

  lemma {:induction false} MentionedHasAttributes(log: seq<Event>, id: EntityId)
    ensures Mentioned(log, id) <==> LastAttributes(log, id).Some?
  {
    if |log| == 0 {
    } else {
      MentionedStep(log, id);
      MentionedHasAttributes(log[..|log| - 1], id);
    }
  }

  /** The i-th event of a pass from s declares the edge, and its upstream entity exists by then. */
  ghost predicate InsertsAt(s: Store, log: seq<Event>, i: int, edge: Edge) {
    && 0 <= i < |log| && Declares(log[i], edge)
    && (edge.up in s.entities || Mentioned(log[..i + 1], edge.up))
  }

  lemma InsertsInFront(s: Store, log: seq<Event>, edge: Edge)
    requires |log| > 0
    ensures forall i :: 0 <= i < |log| - 1 ==> (InsertsAt(s, log, i, edge) <==> InsertsAt(s, log[..|log| - 1], i, edge))
  {
    forall i | 0 <= i < |log| - 1
      ensures InsertsAt(s, log, i, edge) <==> InsertsAt(s, log[..|log| - 1], i, edge)
    {
      assert log[..|log| - 1][..i + 1] == log[..i + 1];
    }
  }

  /** The edges after a pass: the old ones, and those whose upstream entity exists when they are declared. */
  lemma {:induction false} FoldEdges(s: Store, log: seq<Event>, edge: Edge)
    ensures edge in Fold(s, log).lineage <==>
              edge in s.lineage || exists i :: InsertsAt(s, log, i, edge)
    ensures edge in s.lineage ==> edge in Fold(s, log).lineage && Fold(s, log).lineage[edge] == s.lineage[edge]
  {
    if |log| == 0 {
    } else {
      var n := |log| - 1;
      var t := Fold(s, log[..n]);
      FoldEdges(s, log[..n], edge);
      ApplyEffect(t, log[n], edge, edge.up);
      FoldEntityKeys(s, log[..n], edge.up);
      MentionedStep(log, edge.up);
      assert log[..n + 1] == log;
      InsertsInFront(s, log, edge);
      if i :| InsertsAt(s, log[..n], i, edge) {
        assert InsertsAt(s, log, i, edge);
      }
      if edge in Fold(s, log).lineage && edge !in t.lineage {
        assert InsertsAt(s, log, n, edge);
      }
    }
  }

  lemma {:induction false} FoldQuality(s: Store, log: seq<Event>)
    ensures Fold(s, log).quality == s.quality + QualityOf(log)
  {
    if |log| == 0 {
    } else {
      var n := |log| - 1;
      FoldQuality(s, log[..n]);
      var id := EntityId("", "", "");
      ApplyEffect(Fold(s, log[..n]), log[n], Edge(id, id, ""), id);
      var rows := if log[n].Created? then Rows(log[n].id, log[n].runId, log[n].checks) else [];
      assert s.quality + QualityOf(log[..n]) + rows == s.quality + (QualityOf(log[..n]) + rows);
    }
  }

  // ---- Replaying from an empty store ----

  /** One pass inserts exactly the edges whose upstream entity was upserted by then. */
  lemma FirstPass(log: seq<Event>, edge: Edge)
    ensures edge in Fold(EMPTY, log).lineage <==> DeclaredInOrder(log, edge)
  {
    FoldEdges(EMPTY, log, edge);
    if i :| InsertsAt(EMPTY, log, i, edge) {
      assert Declares(log[i], edge) && Mentioned(log[..i + 1], edge.up);
    }
    if i :| 0 <= i < |log| && Declares(log[i], edge) && Mentioned(log[..i + 1], edge.up) {
      assert InsertsAt(EMPTY, log, i, edge);
    }
  }

  /**
   A second pass inserts exactly the declared edges whose upstream entity occurs anywhere in the log, and this does not
   depend on the order in which the second pass delivers the events.
   */
  lemma SecondPass(log: seq<Event>, again: seq<Event>, edge: Edge)
    requires forall e :: e in log <==> e in again
    ensures edge in Fold(Fold(EMPTY, log), again).lineage <==> Declared(log, edge)
  {
    var s1 := Fold(EMPTY, log);
    FoldEdges(s1, again, edge);
    FoldEntityKeys(EMPTY, log, edge.up);
    FirstPass(log, edge);
    if DeclaredInOrder(log, edge) {
      var i :| 0 <= i < |log| && Declares(log[i], edge) && Mentioned(log[..i + 1], edge.up);
      PrefixMentioned(log, i + 1, edge.up);
    }
    if i :| 0 <= i < |log| && Declares(log[i], edge) {
      assert log[i] in again;
      var j :| 0 <= j < |again| && again[j] == log[i];
      assert edge.up in s1.entities ==> InsertsAt(s1, again, j, edge);
    }
    if j :| InsertsAt(s1, again, j, edge) {
      assert again[j] in log;
      var i :| 0 <= i < |log| && log[i] == again[j];
      if Mentioned(again[..j + 1], edge.up) {
        var k :| 0 <= k < j + 1 && again[k].Created? && again[k].id == edge.up;
        assert again[k] in log;
      }
    }
  }

  lemma PrefixMentioned(log: seq<Event>, k: nat, id: EntityId)
    requires k <= |log| && Mentioned(log[..k], id)
    ensures Mentioned(log, id)
  {
    var i :| 0 <= i < k && log[..k][i].Created? && log[..k][i].id == id;
    assert log[i] == log[..k][i];
  }

  lemma EntitiesConverge(s: Store, log: seq<Event>)
    requires s.entities == Fold(EMPTY, log).entities
    ensures Fold(s, log).entities == s.entities
  {
    var t := Fold(s, log);
    forall id
      ensures id in t.entities <==> id in s.entities
      ensures id in s.entities ==> t.entities[id] == s.entities[id]
    {
      FoldEntityKeys(s, log, id);
      FoldEntityKeys(EMPTY, log, id);
      if id in s.entities {
        FoldEntity(s, log, id);
        FoldEntity(EMPTY, log, id);
        MentionedHasAttributes(log, id);
      }
    }
    assert t.entities.Keys == s.entities.Keys;
  }

  /**
   Replay fixpoint. From an empty store, the entities with their attributes, runs and schema versions are final
   after the first pass, the edges after the second; a third pass changes neither. The quality rows have no key
   and are inserted again by every pass.
   */
  lemma ReplayFixpoint(log: seq<Event>)
    ensures var s1 := Fold(EMPTY, log);
            var s2 := Fold(s1, log);
            var s3 := Fold(s2, log);
            && s2.entities == s1.entities
            && s3.entities == s2.entities && s3.lineage == s2.lineage
            && s3.quality == QualityOf(log) + QualityOf(log) + QualityOf(log)
  {
    var s1 := Fold(EMPTY, log);
    var s2 := Fold(s1, log);
    var s3 := Fold(s2, log);
    EntitiesConverge(s1, log);
    EntitiesConverge(s2, log);
    forall edge
      ensures edge in s3.lineage <==> edge in s2.lineage
      ensures edge in s2.lineage ==> s3.lineage[edge] == s2.lineage[edge]
    {
      FoldEdges(s2, log, edge);
      SecondPass(log, log, edge);
      FoldEntityKeys(EMPTY, log, edge.up);
      if i :| InsertsAt(s2, log, i, edge) {
        if Mentioned(log[..i + 1], edge.up) {
          PrefixMentioned(log, i + 1, edge.up);
        }
      }
    }
    assert s3.lineage.Keys == s2.lineage.Keys;
    FoldQuality(EMPTY, log);
    FoldQuality(s1, log);
    FoldQuality(s2, log);
    assert [] + QualityOf(log) == QualityOf(log);
  }

  // ---- Any schedule of restarts ----

  /** The points where the lives stop lie within the log. */
  predicate Within(cuts: seq<nat>, log: seq<Event>) {
    forall i :: 0 <= i < |cuts| ==> cuts[i] <= |log|
  }

  /** Process lives, each replaying the log from its start up to the point where it stops. */
  function Lives(s: Store, log: seq<Event>, cuts: seq<nat>): Store
    requires Within(cuts, log)
  {
    if |cuts| == 0 then s
    else
      var n := |cuts| - 1;
      Fold(Lives(s, log, cuts[..n]), log[..cuts[n]])
  }

  lemma {:induction false} LivesStaySound(log: seq<Event>, cuts: seq<nat>, edge: Edge, id: EntityId)
    requires Within(cuts, log)
    ensures edge in Lives(EMPTY, log, cuts).lineage ==> Declared(log, edge)
    ensures id in Lives(EMPTY, log, cuts).entities ==> Mentioned(log, id)
  {
    if |cuts| == 0 {
    } else {
      var n := |cuts| - 1;
      var s, part := Lives(EMPTY, log, cuts[..n]), log[..cuts[n]];
      LivesStaySound(log, cuts[..n], edge, id);
      LivesStaySound(log, cuts[..n], edge, edge.up);
      FoldEntityKeys(s, part, id);
      if Mentioned(part, id) {
        PrefixMentioned(log, cuts[n], id);
      }
      FoldEdges(s, part, edge);
      if i :| InsertsAt(s, part, i, edge) {
        assert log[i] == part[i] && part[..i + 1] == log[..i + 1];
        if Mentioned(part[..i + 1], edge.up) {
          PrefixMentioned(log, i + 1, edge.up);
        }
      }
    }
  }

  lemma {:induction false} LivesOnlyAdd(log: seq<Event>, cuts: seq<nat>, k: nat, edge: Edge, id: EntityId)
    requires Within(cuts, log)
    requires k <= |cuts|
    ensures Within(cuts[..k], log)
    ensures edge in Lives(EMPTY, log, cuts[..k]).lineage ==> edge in Lives(EMPTY, log, cuts).lineage
    ensures id in Lives(EMPTY, log, cuts[..k]).entities ==> id in Lives(EMPTY, log, cuts).entities
  {
    if k == |cuts| {
      assert cuts[..k] == cuts;
    } else {
      var n := |cuts| - 1;
      LivesOnlyAdd(log, cuts[..n], k, edge, id);
      assert cuts[..n][..k] == cuts[..k];
      FoldEdges(Lives(EMPTY, log, cuts[..n]), log[..cuts[n]], edge);
      FoldEntityKeys(Lives(EMPTY, log, cuts[..n]), log[..cuts[n]], id);
    }
  }

  /**
   Convergence over any restarts. However often and wherever the consumer stops, every stored edge is a declared one
   with a known upstream entity, and once two lives have replayed the whole log all of those are stored, for good.
   */
  lemma RestartsConverge(log: seq<Event>, cuts: seq<nat>, edge: Edge)
    requires Within(cuts, log)
    ensures edge in Lives(EMPTY, log, cuts).lineage ==> Declared(log, edge)
    ensures (exists a, b :: 0 <= a < b < |cuts| && cuts[a] == |log| && cuts[b] == |log|) ==>
              (edge in Lives(EMPTY, log, cuts).lineage <==> Declared(log, edge))
  {
    LivesStaySound(log, cuts, edge, edge.up);
    if Declared(log, edge) {
      if a, b :| 0 <= a < b < |cuts| && cuts[a] == |log| && cuts[b] == |log| {
        TwoFullLives(log, cuts, a, b, edge);
      }
    }
  }

  /** After a life that replayed the whole log every mentioned entity exists, for good. */
  lemma KnownAfterFullLife(log: seq<Event>, cuts: seq<nat>, a: nat, id: EntityId)
    requires Within(cuts, log) && a < |cuts| && cuts[a] == |log| && Mentioned(log, id)
    ensures id in Lives(EMPTY, log, cuts).entities
  {
    assert log[..|log|] == log && cuts[..a + 1][..a] == cuts[..a];
    FoldEntityKeys(Lives(EMPTY, log, cuts[..a]), log, id);
    LivesOnlyAdd(log, cuts, a + 1, Edge(id, id, ""), id);
  }

  lemma TwoFullLives(log: seq<Event>, cuts: seq<nat>, a: nat, b: nat, edge: Edge)
    requires Within(cuts, log)
    requires a < b < |cuts| && cuts[a] == |log| && cuts[b] == |log|
    requires Declared(log, edge)
    ensures edge in Lives(EMPTY, log, cuts).lineage
  {
    KnownAfterFullLife(log, cuts[..b], a, edge.up);
    assert log[..|log|] == log && cuts[..b + 1][..b] == cuts[..b];
    FoldEdges(Lives(EMPTY, log, cuts[..b]), log, edge);
    var i :| 0 <= i < |log| && Declares(log[i], edge);
    assert InsertsAt(Lives(EMPTY, log, cuts[..b]), log, i, edge);
    LivesOnlyAdd(log, cuts, b + 1, edge, edge.up);
  }

  /**
   A reference that matches no entity key stays without an edge forever. This is what becomes of the doc-processor's
   `chunked_into` references: they name a RawDocument by doc_id, while the connectors key RawDocument by content_ref.
   */
  lemma UnmatchedRefsNeverBecomeEdges(log: seq<Event>, cuts: seq<nat>, edge: Edge)
    requires Within(cuts, log)
    requires forall e :: e in log && e.Created? ==> e.id != edge.up
    ensures edge !in Lives(EMPTY, log, cuts).lineage
  {
    LivesStaySound(log, cuts, edge, edge.up);
    if Mentioned(log, edge.up) {
      var i :| 0 <= i < |log| && log[i].Created? && log[i].id == edge.up;
      assert log[i] in log;
    }
  }
}
