/**
 Schema versions and staleness (services/metadata-service/src/db.py): `create_schema_version` retires a tenant's
 versions and inserts a new current one; `query_stale` joins embeddings with the version they were first recorded
 under and with the current one. A version's id is its position in the table.
 */
module SchemaVersions {
  import opened Lineage
  import opened Replay

  datatype Version = Version(tenant: string, number: nat, model: string, current: bool)

  // ---- create_schema_version ----

  /** UPDATE .. SET is_current = FALSE WHERE tenant_id = .. */
  function Deactivate(vs: seq<Version>, tenant: string): (r: seq<Version>)
    ensures |r| == |vs|
    ensures forall i :: 0 <= i < |vs| ==> r[i] == if vs[i].tenant == tenant then vs[i].(current := false) else vs[i]
  {
    seq(|vs|, i requires 0 <= i < |vs| => if vs[i].tenant == tenant then vs[i].(current := false) else vs[i])
  }

  /** COALESCE(MAX(version_number), 0) over the tenant's versions. */
  function MaxNumber(vs: seq<Version>, tenant: string): nat {
    if |vs| == 0 then 0
    else
      var m := MaxNumber(vs[..|vs| - 1], tenant);
      var v := vs[|vs| - 1];
      if v.tenant == tenant && v.number > m then v.number else m
  }

  function Create(vs: seq<Version>, tenant: string, model: string): seq<Version> {
    var retired := Deactivate(vs, tenant);
    retired + [Version(tenant, MaxNumber(retired, tenant) + 1, model, true)]
  }

  function CountOf(vs: seq<Version>, tenant: string): nat {
    if |vs| == 0 then 0 else CountOf(vs[..|vs| - 1], tenant) + if vs[|vs| - 1].tenant == tenant then 1 else 0
  }

  /** The version's number is its place among the tenant's versions. */
  ghost predicate Placed(vs: seq<Version>, i: nat)
    requires i < |vs|
  {
    vs[i].number == CountOf(vs[..i + 1], vs[i].tenant)
  }

  ghost predicate AllPlaced(vs: seq<Version>) {
    forall i :: 0 <= i < |vs| ==> Placed(vs, i)
  }

  /** The tenant's k-th version has number k, and exactly its last version is current. */
  ghost predicate Numbered(vs: seq<Version>) {
    && AllPlaced(vs)
    && (forall i :: 0 <= i < |vs| ==> (vs[i].current <==> IsLast(vs, i)))
  }

  ghost predicate IsLast(vs: seq<Version>, i: nat)
    requires i < |vs|
  {
    forall j :: i < j < |vs| ==> vs[j].tenant != vs[i].tenant
  }

  /** The same versions up to the current flag. */
  ghost predicate SameButCurrent(vs: seq<Version>, r: seq<Version>) {
    |r| == |vs| && forall i :: 0 <= i < |vs| ==> r[i] == vs[i].(current := r[i].current)
  }

  lemma {:induction false} SameCount(vs: seq<Version>, r: seq<Version>, tenant: string)
    requires SameButCurrent(vs, r)
    ensures CountOf(r, tenant) == CountOf(vs, tenant)
  {
    if |vs| == 0 {
    } else {
      SameCount(vs[..|vs| - 1], r[..|r| - 1], tenant);
    }
  }

  lemma {:induction false} CountMonotone(vs: seq<Version>, k: nat, tenant: string)
    requires k <= |vs|
    ensures CountOf(vs[..k], tenant) <= CountOf(vs, tenant)
  {
    if k < |vs| {
      CountMonotone(vs[..|vs| - 1], k, tenant);
      assert vs[..|vs| - 1][..k] == vs[..k];
    } else {
      assert vs[..k] == vs;
    }
  }

  lemma {:induction false} MaxIsCount(vs: seq<Version>, tenant: string)
    requires AllPlaced(vs)
    ensures MaxNumber(vs, tenant) == CountOf(vs, tenant)
  {
    if |vs| == 0 {
    } else {
      var n := |vs| - 1;
      forall i | 0 <= i < n
        ensures Placed(vs[..n], i)
      {
        assert Placed(vs, i) && vs[..n][..i + 1] == vs[..i + 1];
      }
      MaxIsCount(vs[..n], tenant);
      assert Placed(vs, n) && vs[..n + 1] == vs;
    }
  }

  lemma SamePlaces(vs: seq<Version>, r: seq<Version>)
    requires AllPlaced(vs) && SameButCurrent(vs, r)
    ensures AllPlaced(r)
  {
    forall i | 0 <= i < |r|
      ensures Placed(r, i)
    {
      assert Placed(vs, i);
      SameCount(vs[..i + 1], r[..i + 1], vs[i].tenant);
    }
  }

  /** MAX + 1 over the versions, current or not, is one more than their number. */
  lemma NextNumber(vs: seq<Version>, r: seq<Version>, tenant: string)
    requires AllPlaced(vs) && SameButCurrent(vs, r)
    ensures MaxNumber(r, tenant) == CountOf(vs, tenant)
  {
    SamePlaces(vs, r);
    SameCount(vs, r, tenant);
    MaxIsCount(r, tenant);
  }

  /** The next version takes the next place. */
  lemma AppendPlaces(r: seq<Version>, last: Version)
    requires AllPlaced(r) && last.number == MaxNumber(r, last.tenant) + 1
    ensures AllPlaced(r + [last])
  {
    var t := r + [last];
    forall i | 0 <= i < |r|
      ensures Placed(t, i)
    {
      assert Placed(r, i) && t[..i + 1] == r[..i + 1];
    }
    MaxIsCount(r, last.tenant);
    assert t[..|r| + 1] == t && t[..|t| - 1] == r;
  }

  lemma CreateCurrents(vs: seq<Version>, tenant: string, model: string, i: nat)
    requires forall i :: 0 <= i < |vs| ==> (vs[i].current <==> IsLast(vs, i))
    requires i < |Create(vs, tenant, model)|
    ensures var t := Create(vs, tenant, model); t[i].current <==> IsLast(t, i)
  {
    var t := Create(vs, tenant, model);
    if i < |vs| {
      if vs[i].tenant == tenant {
        assert t[|vs|].tenant == tenant;
      } else if IsLast(vs, i) {
        assert IsLast(t, i);
      } else {
        var j :| i < j < |vs| && vs[j].tenant == vs[i].tenant;
        assert t[j].tenant == t[i].tenant;
      }
    }
  }

  lemma CreateKeepsNumbered(vs: seq<Version>, tenant: string, model: string)
    requires Numbered(vs)
    ensures Numbered(Create(vs, tenant, model))
  {
    var r, t := Deactivate(vs, tenant), Create(vs, tenant, model);
    SamePlaces(vs, r);
    AppendPlaces(r, t[|r|]);
    forall i | 0 <= i < |t|
      ensures t[i].current <==> IsLast(t, i)
    {
      CreateCurrents(vs, tenant, model, i);
    }
  }

  lemma {:induction false} HasCurrent(vs: seq<Version>, tenant: string) returns (c: nat)
    requires Numbered(vs) && CountOf(vs, tenant) > 0
    ensures c < |vs| && vs[c].tenant == tenant && vs[c].current
  {
    c := LastOf(vs, tenant);
  }

  lemma {:induction false} LastOf(vs: seq<Version>, tenant: string) returns (c: nat)
    requires CountOf(vs, tenant) > 0
    ensures c < |vs| && vs[c].tenant == tenant && IsLast(vs, c)
  {
    var n := |vs| - 1;
    if vs[n].tenant == tenant {
      c := n;
    } else {
      c := LastOf(vs[..n], tenant);
    }
  }

  lemma OneCurrent(vs: seq<Version>, a: nat, b: nat)
    requires Numbered(vs) && a < |vs| && b < |vs|
    requires vs[a].tenant == vs[b].tenant && vs[a].current && vs[b].current
    ensures a == b
  {
    assert IsLast(vs, a) && IsLast(vs, b);
  }

  lemma {:induction false} VersionWithNumber(vs: seq<Version>, tenant: string, k: nat) returns (i: nat)
    requires 1 <= k <= CountOf(vs, tenant)
    ensures i < |vs| && vs[i].tenant == tenant && CountOf(vs[..i + 1], tenant) == k
  {
    var n := |vs| - 1;
    if k <= CountOf(vs[..n], tenant) {
      i := VersionWithNumber(vs[..n], tenant, k);
      assert vs[..n][..i + 1] == vs[..i + 1];
    } else {
      i := n;
      assert vs[..n + 1] == vs;
    }
  }

  /**
   Numbering. In a table built by `create_schema_version` calls, a tenant with m versions has exactly one current
   version, number m, and its version numbers are 1..m, each once.
   */
  lemma VersionsAreNumbered(vs: seq<Version>, tenant: string) returns (current: nat)
    requires Numbered(vs) && CountOf(vs, tenant) > 0
    ensures current < |vs| && vs[current].tenant == tenant && vs[current].current
    ensures vs[current].number == CountOf(vs, tenant)
    ensures forall i :: 0 <= i < |vs| && vs[i].tenant == tenant && vs[i].current ==> i == current
    ensures forall k :: 1 <= k <= CountOf(vs, tenant) ==> HasNumber(vs, tenant, k)
    ensures forall i, j :: 0 <= i < j < |vs| && vs[i].tenant == tenant && vs[j].tenant == tenant ==>
              1 <= vs[i].number < vs[j].number <= CountOf(vs, tenant)
  {
    current := HasCurrent(vs, tenant);
    forall i | 0 <= i < |vs| && vs[i].tenant == tenant && vs[i].current
      ensures i == current
    {
      OneCurrent(vs, i, current);
    }
    CountUpToLast(vs, current);
    assert Placed(vs, current);
    forall k | 1 <= k <= CountOf(vs, tenant)
      ensures HasNumber(vs, tenant, k)
    {
      NumberOccurs(vs, tenant, k);
    }
    forall i, j | 0 <= i < j < |vs| && vs[i].tenant == tenant && vs[j].tenant == tenant
      ensures 1 <= vs[i].number < vs[j].number <= CountOf(vs, tenant)
    {
      NumbersIncrease(vs, i, j);
    }
  }

  ghost predicate HasNumber(vs: seq<Version>, tenant: string, k: nat) {
    exists i :: 0 <= i < |vs| && vs[i].tenant == tenant && vs[i].number == k
  }

  lemma NumberOccurs(vs: seq<Version>, tenant: string, k: nat)
    requires Numbered(vs) && 1 <= k <= CountOf(vs, tenant)
    ensures HasNumber(vs, tenant, k)
  {
    var i := VersionWithNumber(vs, tenant, k);
    assert Placed(vs, i);
  }

  /** A version counts itself, and is not counted before itself. */
  lemma PlaceStep(vs: seq<Version>, i: nat, tenant: string)
    requires i < |vs| && vs[i].tenant == tenant
    ensures CountOf(vs[..i + 1], tenant) == CountOf(vs[..i], tenant) + 1
  {
    assert vs[..i + 1][..i] == vs[..i];
  }

  lemma PlacesIncrease(vs: seq<Version>, i: nat, j: nat, tenant: string)
    requires i < j < |vs| && vs[i].tenant == tenant && vs[j].tenant == tenant
    ensures 1 <= CountOf(vs[..i + 1], tenant) < CountOf(vs[..j + 1], tenant) <= CountOf(vs, tenant)
  {
    PlaceStep(vs, i, tenant);
    PlaceStep(vs, j, tenant);
    CountMonotone(vs, j + 1, tenant);
    CountMonotone(vs[..j], i + 1, tenant);
    assert vs[..j][..i + 1] == vs[..i + 1];
  }

  lemma NumbersIncrease(vs: seq<Version>, i: nat, j: nat)
    requires Numbered(vs) && i < j < |vs| && vs[i].tenant == vs[j].tenant
    ensures 1 <= vs[i].number < vs[j].number <= CountOf(vs, vs[i].tenant)
  {
    PlacesIncrease(vs, i, j, vs[i].tenant);
    assert Placed(vs, i) && Placed(vs, j);
  }

  lemma {:induction false} CountUpToLast(vs: seq<Version>, i: nat)
    requires i < |vs| && IsLast(vs, i)
    ensures CountOf(vs[..i + 1], vs[i].tenant) == CountOf(vs, vs[i].tenant)
  {
    if i + 1 == |vs| {
      assert vs[..i + 1] == vs;
    } else {
      var n := |vs| - 1;
      CountUpToLast(vs[..n], i);
      assert vs[..n][..i + 1] == vs[..i + 1];
    }
  }

  // ---- query_stale ----

  datatype StaleRow = StaleRow(embedding: EntityId, version: nat, current: nat)

  /** The inner joins for one entity: its version, and each current version of that version's tenant. */
  function StaleOf(vs: seq<Version>, e: Entity, id: EntityId, upTo: nat): seq<StaleRow>
    requires upTo <= |vs|
  {
    if upTo == 0 then []
    else
      var c := upTo - 1;
      StaleOf(vs, e, id, c)
      + if e.schemaVersion.Some? && e.schemaVersion.value < |vs|
           && vs[c].tenant == vs[e.schemaVersion.value].tenant && vs[c].current && e.schemaVersion.value != c
        then [StaleRow(id, e.schemaVersion.value, c)] else []
  }

  /** What the join yields for one listed entity, after the WHERE clause. */
  function StaleRows(s: Store, vs: seq<Version>, id: EntityId, tenant: string): seq<StaleRow>
    requires id in s.entities
  {
    if id.etype == "Embedding" && id.tenant == tenant then StaleOf(vs, s.entities[id], id, |vs|) else []
  }

  function QueryStale(s: Store, vs: seq<Version>, listing: seq<EntityId>, tenant: string): seq<StaleRow>
    requires forall id :: id in listing ==> id in s.entities
  {
    if |listing| == 0 then []
    else
      var n := |listing| - 1;
      var id := listing[n];
      assert id in listing;
      QueryStale(s, vs, listing[..n], tenant) + StaleRows(s, vs, id, tenant)
  }

  /** The embedding was first recorded under a version that is no longer current. */
  ghost predicate IsStale(s: Store, vs: seq<Version>, id: EntityId, tenant: string) {
    && id in s.entities && id.etype == "Embedding" && id.tenant == tenant
    && var v := s.entities[id].schemaVersion;
       v.Some? && v.value < |vs| && !vs[v.value].current
  }

  /** Of the versions of the tenant only the current one joins. */
  ghost predicate JoinsOnly(vs: seq<Version>, tenant: string, cur: nat) {
    forall c :: 0 <= c < |vs| ==> (vs[c].tenant == tenant && vs[c].current <==> c == cur)
  }

  lemma {:induction false} StaleOfBelow(vs: seq<Version>, e: Entity, id: EntityId, upTo: nat, cur: nat)
    requires upTo <= |vs| && e.schemaVersion.Some? && e.schemaVersion.value < |vs|
    requires JoinsOnly(vs, vs[e.schemaVersion.value].tenant, cur)
    ensures StaleOf(vs, e, id, upTo) ==
            if cur < upTo && cur != e.schemaVersion.value then [StaleRow(id, e.schemaVersion.value, cur)] else []
  {
    if upTo == 0 {
    } else {
      StaleOfBelow(vs, e, id, upTo - 1, cur);
    }
  }

  lemma CurrentJoinsOnly(vs: seq<Version>, cur: nat)
    requires Numbered(vs) && cur < |vs| && vs[cur].current
    ensures JoinsOnly(vs, vs[cur].tenant, cur)
  {
    forall c | 0 <= c < |vs| && vs[c].tenant == vs[cur].tenant && vs[c].current ensures c == cur {
      OneCurrent(vs, c, cur);
    }
  }

  /** One row for a stale embedding, naming the current version of its version's tenant; none for any other entity. */
  lemma StaleOfOne(s: Store, vs: seq<Version>, id: EntityId, tenant: string)
    requires Numbered(vs) && id in s.entities && id.etype == "Embedding" && id.tenant == tenant
    ensures IsStale(s, vs, id, tenant) ==>
              |StaleOf(vs, s.entities[id], id, |vs|)| == 1 && StaleOf(vs, s.entities[id], id, |vs|)[0].embedding == id
    ensures !IsStale(s, vs, id, tenant) ==> StaleOf(vs, s.entities[id], id, |vs|) == []
  {
    var e := s.entities[id];
    if e.schemaVersion.Some? && e.schemaVersion.value < |vs| {
      var v := e.schemaVersion.value;
      CountUpTo(vs, v);
      var cur := HasCurrent(vs, vs[v].tenant);
      CurrentJoinsOnly(vs, cur);
      StaleOfBelow(vs, e, id, |vs|, cur);
    } else {
      StaleOfNone(vs, e, id, |vs|);
    }
  }

  lemma CountUpTo(vs: seq<Version>, v: nat)
    requires v < |vs|
    ensures CountOf(vs, vs[v].tenant) > 0
  {
    CountMonotone(vs, v + 1, vs[v].tenant);
    assert vs[..v + 1][|vs[..v + 1]| - 1] == vs[v];
  }

  lemma {:induction false} StaleOfNone(vs: seq<Version>, e: Entity, id: EntityId, upTo: nat)
    requires upTo <= |vs| && !(e.schemaVersion.Some? && e.schemaVersion.value < |vs|)
    ensures StaleOf(vs, e, id, upTo) == []
  {
    if upTo == 0 {
    } else {
      StaleOfNone(vs, e, id, upTo - 1);
    }
  }

  /** How many rows an embedding has in the answer. */
  function RowsFor(rows: seq<StaleRow>, id: EntityId): nat {
    if |rows| == 0 then 0 else RowsFor(rows[..|rows| - 1], id) + if rows[|rows| - 1].embedding == id then 1 else 0
  }

  lemma {:induction false} RowsForConcat(a: seq<StaleRow>, b: seq<StaleRow>, id: EntityId)
    requires |b| <= 1
    ensures RowsFor(a + b, id) == RowsFor(a, id) + RowsFor(b, id)
  {
    if |b| == 1 {
      assert (a + b)[..|a + b| - 1] == a && b[..0] == [];
    } else {
      assert a + b == a;
    }
  }

  lemma StaleRowsOfOne(s: Store, vs: seq<Version>, x: EntityId, tenant: string, id: EntityId)
    requires Numbered(vs) && x in s.entities
    ensures |StaleRows(s, vs, x, tenant)| <= 1
    ensures RowsFor(StaleRows(s, vs, x, tenant), id) == if x == id && IsStale(s, vs, id, tenant) then 1 else 0
  {
    var rows := StaleRows(s, vs, x, tenant);
    if x.etype == "Embedding" && x.tenant == tenant {
      StaleOfOne(s, vs, x, tenant);
    }
    assert rows[..0] == [];
  }

  /**
   `query_stale` lists each embedding of the tenant recorded under an outdated version exactly once, and nothing else.
   */
  lemma {:induction false} StaleListedOnce(
    s: Store, vs: seq<Version>, listing: seq<EntityId>, tenant: string, id: EntityId)
    requires Numbered(vs)
    requires forall i, j :: 0 <= i < j < |listing| ==> listing[i] != listing[j]
    requires forall x :: x in listing ==> x in s.entities
    ensures RowsFor(QueryStale(s, vs, listing, tenant), id)
            == if id in listing && IsStale(s, vs, id, tenant) then 1 else 0
  {
    if |listing| == 0 {
    } else {
      var n := |listing| - 1;
      var x := listing[n];
      assert x in listing && listing == listing[..n] + [x];
      StaleListedOnce(s, vs, listing[..n], tenant, id);
      StaleRowsOfOne(s, vs, x, tenant, id);
      RowsForConcat(QueryStale(s, vs, listing[..n], tenant), StaleRows(s, vs, x, tenant), id);
    }
  }

  // ---- Both tables over time ----

  datatype Db = Db(store: Store, versions: seq<Version>)

  datatype Step = Event(e: Lineage.Event) | NewVersion(tenant: string, model: string)

  /** The foreign key refuses the first insert of an entity under a version that does not exist. */
  ghost predicate Refused(db: Db, e: Lineage.Event) {
    e.Created? && e.id !in db.store.entities && e.schemaVersion.Some? && e.schemaVersion.value >= |db.versions|
  }

  ghost function Next(db: Db, step: Step): Db {
    match step
    case Event(e) => if Refused(db, e) then db else db.(store := Apply(db.store, e))
    case NewVersion(tenant, model) => db.(versions := Create(db.versions, tenant, model))
  }

  ghost function RunAll(db: Db, steps: seq<Step>): Db {
    if |steps| == 0 then db else Next(RunAll(db, steps[..|steps| - 1]), steps[|steps| - 1])
  }

  lemma {:induction false} RunKeepsNumbered(db: Db, steps: seq<Step>)
    requires Numbered(db.versions)
    ensures Numbered(RunAll(db, steps).versions)
  {
    if |steps| == 0 {
    } else {
      var n := |steps| - 1;
      RunKeepsNumbered(db, steps[..n]);
      if steps[n].NewVersion? {
        CreateKeepsNumbered(RunAll(db, steps[..n]).versions, steps[n].tenant, steps[n].model);
      }
    }
  }

  /** The version an entity was first recorded under never changes. */
  lemma NextKeepsVersion(db: Db, step: Step, id: EntityId)
    requires id in db.store.entities
    ensures id in Next(db, step).store.entities
    ensures Next(db, step).store.entities[id].schemaVersion == db.store.entities[id].schemaVersion
    ensures forall v :: 0 <= v < |db.versions| && !db.versions[v].current ==>
              v < |Next(db, step).versions| && !Next(db, step).versions[v].current
  {
    if step.Event? && !Refused(db, step.e) {
      ApplyEffect(db.store, step.e, Edge(id, id, ""), id);
    }
  }

  lemma {:induction false} StaysStale(db: Db, steps: seq<Step>, id: EntityId, tenant: string)
    requires IsStale(db.store, db.versions, id, tenant)
    ensures IsStale(RunAll(db, steps).store, RunAll(db, steps).versions, id, tenant)
  {
    if |steps| == 0 {
    } else {
      StaysStale(db, steps[..|steps| - 1], id, tenant);
      NextKeepsVersion(RunAll(db, steps[..|steps| - 1]), steps[|steps| - 1], id);
    }
  }

  /**
   Once listed as stale, an embedding is listed, once, after every later run, however the entities come to be ordered:
   re-embedding it under the new version does not help.
   */
  lemma StaleForever(
    db: Db, steps: seq<Step>, before: seq<EntityId>, after: seq<EntityId>, id: EntityId, tenant: string)
    requires Numbered(db.versions) && Listing(db.store, before) && Listing(RunAll(db, steps).store, after)
    requires RowsFor(QueryStale(db.store, db.versions, before, tenant), id) > 0
    ensures RowsFor(QueryStale(RunAll(db, steps).store, RunAll(db, steps).versions, after, tenant), id) == 1
  {
    StaleListedOnce(db.store, db.versions, before, tenant, id);
    StaysStale(db, steps, id, tenant);
    RunKeepsNumbered(db, steps);
    StaleListedOnce(RunAll(db, steps).store, RunAll(db, steps).versions, after, tenant, id);
  }

  /** The entity table in some order. */
  ghost predicate Listing(s: Store, ids: seq<EntityId>) {
    && (forall i, j :: 0 <= i < j < |ids| ==> ids[i] != ids[j])
    && forall id :: id in ids <==> id in s.entities
  }

  /**
   An entity first recorded without a schema version is never listed. The embedding worker's events carry none
   (services/embedding-worker/src/metadata_event.py:51-99).
   */
  lemma {:induction false} UnversionedNeverStale(db: Db, steps: seq<Step>, id: EntityId, tenant: string)
    requires id in db.store.entities && db.store.entities[id].schemaVersion.None?
    ensures id in RunAll(db, steps).store.entities
    ensures RunAll(db, steps).store.entities[id].schemaVersion.None?
    ensures !IsStale(RunAll(db, steps).store, RunAll(db, steps).versions, id, tenant)
  {
    if |steps| == 0 {
    } else {
      UnversionedNeverStale(db, steps[..|steps| - 1], id, tenant);
      NextKeepsVersion(RunAll(db, steps[..|steps| - 1]), steps[|steps| - 1], id);
    }
  }

  class SchemaVersionTable {
    var rows: seq<Version>

    ghost predicate Valid()
      reads this
    {
      Numbered(rows)
    }

    constructor ()
      ensures Valid() && rows == []
    {
      rows := [];
    }

    method CreateSchemaVersion(tenant: string, model: string) returns (created: Version)
      requires Valid()
      modifies this
      ensures Valid()
      ensures rows == Create(old(rows), tenant, model)
      ensures created == rows[|rows| - 1] && created.current
      ensures created.number == CountOf(old(rows), tenant) + 1
    {
      ghost var after := Create(rows, tenant, model);
      assert Numbered(after) by {
        CreateKeepsNumbered(rows, tenant, model);
      }
      var retired := Deactivate(rows, tenant);
      NextNumber(rows, retired, tenant);
      created := Version(tenant, MaxNumber(retired, tenant) + 1, model, true);
      rows := retired + [created];
      assert rows == after;
    }
  }
}
