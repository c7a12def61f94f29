/**
 The lineage store of the metadata service (services/metadata-service/src/db.py) and the event
 handler that writes it (services/metadata-service/src/consumer.py).

 An entity's UUID stands one to one for its (tenant, type, key), which is unique in the table,
 so the key itself is used as the id.
 */
module Lineage {
  import opened Options

  datatype EntityId = EntityId(tenant: string, etype: string, key: string)

  type Attributes = map<string, string>

  datatype Entity = Entity(attributes: Attributes, runId: Option<string>, schemaVersion: Option<nat>)

  datatype Edge = Edge(up: EntityId, down: EntityId, relationship: string)

  datatype Check = Check(name: string, failed: bool)

  datatype QualityRow = QualityRow(entity: EntityId, runId: Option<string>, check: Check)

  /** The DataQualityFailed event: the entity and its failed checks. */
  datatype Alert = Alert(entity: EntityId, failed: seq<Check>)

  datatype Store = Store(
    entities: map<EntityId, Entity>,
    lineage: map<Edge, Option<string>>,     // an edge and the run that first inserted it
    quality: seq<QualityRow>,
    alerts: seq<Alert>)

  const EMPTY := Store(map[], map[], [], [])

  /** A reference to an upstream entity; one that lacks a field raises and is skipped. */
  datatype Ref = Ref(etype: string, key: string, relationship: string) | Malformed

  datatype Event =
    | Created(id: EntityId, attributes: Attributes, upstream: seq<Ref>, checks: seq<Check>,
              runId: Option<string>, schemaVersion: Option<nat>)
    | Other

  // ---- The SQL statements ----

  /**
   INSERT .. ON CONFLICT DO UPDATE: only the attributes change, the run and schema version of the first insert stay.
   */
  function UpsertEntity(
    s: Store, id: EntityId, attributes: Attributes, runId: Option<string>, schemaVersion: Option<nat>): Store
  {
    s.(entities := s.entities[id :=
      if id in s.entities then s.entities[id].(attributes := attributes) else Entity(attributes, runId, schemaVersion)])
  }

  /** The edge is dropped when its upstream entity does not exist, and kept as it is when it is already there. */
  function InsertEdge(s: Store, e: Edge, runId: Option<string>): Store {
    if e.up !in s.entities || e in s.lineage then s else s.(lineage := s.lineage[e := runId])
  }

  function Rows(id: EntityId, runId: Option<string>, checks: seq<Check>): (rows: seq<QualityRow>)
    ensures |rows| == |checks|
    ensures forall i :: 0 <= i < |rows| ==> rows[i] == QualityRow(id, runId, checks[i])
  {
    seq(|checks|, i requires 0 <= i < |checks| => QualityRow(id, runId, checks[i]))
  }

  function Failed(checks: seq<Check>): (f: seq<Check>)
    ensures forall c :: c in f <==> c in checks && c.failed
  {
    if |checks| == 0 then []
    else
      assert checks == checks[..|checks| - 1] + [checks[|checks| - 1]];
      Failed(checks[..|checks| - 1]) + if checks[|checks| - 1].failed then [checks[|checks| - 1]] else []
  }

  function MarkFailed(s: Store, id: EntityId): Store {
    if id in s.entities then
      var e := s.entities[id];
      s.(entities := s.entities[id := e.(attributes := e.attributes["quality_status" := "failed"])])
    else s
  }

  // ---- One event ----

  function EdgeOf(id: EntityId, r: Ref): Edge
    requires r.Ref?
  {
    Edge(EntityId(id.tenant, r.etype, r.key), id, r.relationship)
  }

  function InsertEdges(s: Store, id: EntityId, refs: seq<Ref>, runId: Option<string>): Store {
    if |refs| == 0 then s
    else
      var t := InsertEdges(s, id, refs[..|refs| - 1], runId);
      var r := refs[|refs| - 1];
      if r.Ref? then InsertEdge(t, EdgeOf(id, r), runId) else t
  }

  function RecordChecks(s: Store, id: EntityId, runId: Option<string>, checks: seq<Check>): Store {
    var t := s.(quality := s.quality + Rows(id, runId, checks));
    if Failed(checks) == [] then t
    else
      var u := MarkFailed(t, id);
      u.(alerts := u.alerts + [Alert(id, Failed(checks))])
  }

  function Apply(s: Store, e: Event): Store {
    match e
    case Other => s
    case Created(id, attributes, upstream, checks, runId, schemaVersion) =>
      var s1 := UpsertEntity(s, id, attributes, runId, schemaVersion);
      var s2 := InsertEdges(s1, id, upstream, runId);
      RecordChecks(s2, id, runId, checks)
  }

  function Fold(s: Store, log: seq<Event>): Store {
    if |log| == 0 then s else Apply(Fold(s, log[..|log| - 1]), log[|log| - 1])
  }

  // ---- The consumer ----

  class MetadataConsumer {
    var entities: map<EntityId, Entity>
    var lineage: map<Edge, Option<string>>
    var quality: seq<QualityRow>
    var alerts: seq<Alert>

    ghost function Contents(): Store
      reads this
    {
      Store(entities, lineage, quality, alerts)
    }

    constructor ()
      ensures Contents() == EMPTY
    {
      entities, lineage, quality, alerts := map[], map[], [], [];
    }

    method UpsertEntityRow(id: EntityId, attributes: Attributes, runId: Option<string>, schemaVersion: Option<nat>)
      modifies this`entities
      ensures Contents() == UpsertEntity(old(Contents()), id, attributes, runId, schemaVersion)
    {
      if id in entities {
        entities := entities[id := entities[id].(attributes := attributes)];
      } else {
        entities := entities[id := Entity(attributes, runId, schemaVersion)];
      }
    }

    method InsertLineageEdge(e: Edge, runId: Option<string>)
      modifies this`lineage
      ensures Contents() == InsertEdge(old(Contents()), e, runId)
    {
      if e.up !in entities {
        return;
      }
      if e !in lineage {
        lineage := lineage[e := runId];
      }
    }

    method InsertQualityChecks(id: EntityId, runId: Option<string>, checks: seq<Check>) returns (failed: seq<Check>)
      modifies this`quality
      ensures failed == Failed(checks)
      ensures quality == old(quality) + Rows(id, runId, checks)
    {
      failed := [];
      for i := 0 to |checks|
        invariant failed == Failed(checks[..i])
        invariant quality == old(quality) + Rows(id, runId, checks)[..i]
      {
        quality := quality + [QualityRow(id, runId, checks[i])];
        assert checks[..i + 1][..i] == checks[..i];
        if checks[i].failed {
          failed := failed + [checks[i]];
        }
      }
      assert checks[..|checks|] == checks;
    }

    method UpdateEntityQualityFailed(id: EntityId)
      modifies this`entities
      ensures Contents() == MarkFailed(old(Contents()), id)
    {
      if id in entities {
        entities := entities[id := entities[id].(attributes := entities[id].attributes["quality_status" := "failed"])];
      }
    }

    method ProcessEvent(e: Event)
      modifies this
      ensures Contents() == Apply(old(Contents()), e)
    {
      if e.Other? {
        return;
      }
      UpsertEntityRow(e.id, e.attributes, e.runId, e.schemaVersion);
      ghost var s1 := Contents();
      for i := 0 to |e.upstream|
        invariant Contents() == InsertEdges(s1, e.id, e.upstream[..i], e.runId)
      {
        assert e.upstream[..i + 1][..i] == e.upstream[..i];
        if e.upstream[i].Ref? {
          InsertLineageEdge(EdgeOf(e.id, e.upstream[i]), e.runId);
        }
      }
      assert e.upstream[..|e.upstream|] == e.upstream;
      var failed := InsertQualityChecks(e.id, e.runId, e.checks);
      if failed != [] {
        UpdateEntityQualityFailed(e.id);
        alerts := alerts + [Alert(e.id, failed)];
      }
    }

    /** The consume loop over the messages one process life polls. */
    method Run(log: seq<Event>)
      modifies this
      ensures Contents() == Fold(old(Contents()), log)
    {
      for i := 0 to |log|
        invariant Contents() == Fold(old(Contents()), log[..i])
      {
        assert log[..i + 1][..i] == log[..i];
        ProcessEvent(log[i]);
      }
      assert log[..|log|] == log;
    }
  }
}
