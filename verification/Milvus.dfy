/**
 The keyed vector store (services/embedding-worker/src/milvus_writer.py): one collection per
 name, one row per chunk id, and an upsert that overwrites.
 */
module Milvus {
  import opened Options

  type Vector = seq<real>

  datatype Row = Row(
    docId: string,
    chunkId: string,
    sourceType: string,
    text: string,
    embedding: Vector,
    createdAt: int,
    metadata: map<string, string>,
    tenant: string)

  type Collection = map<string, Row>
  type Store = map<string, Collection>

  /** The row without its time stamp, the only part two deliveries of a chunk may differ in. */
  function Stamped(r: Row): Row {
    r.(createdAt := 0)
  }

  // ---- Collection.upsert: the last row per key wins ----

  function UpsertRows(c: Collection, rows: seq<Row>): Collection {
    if |rows| == 0 then c
    else UpsertRows(c, rows[..|rows| - 1])[rows[|rows| - 1].chunkId := rows[|rows| - 1]]
  }

  function Get(s: Store, name: string): Collection {
    if name in s then s[name] else map[]
  }

  /** An empty list of rows touches nothing: the collection is not even created. */
  function UpsertInto(s: Store, name: string, rows: seq<Row>): Store {
    if |rows| == 0 then s else s[name := UpsertRows(Get(s, name), rows)]
  }

  function Ids(rows: seq<Row>): set<string> {
    set i | 0 <= i < |rows| :: rows[i].chunkId
  }

  /** No row is ever dropped, a written id is present, and an unwritten id is untouched. */
  lemma {:induction false} UpsertKeys(c: Collection, rows: seq<Row>)
    ensures UpsertRows(c, rows).Keys == c.Keys + Ids(rows)
    ensures forall id :: id in c && id !in Ids(rows) ==> UpsertRows(c, rows)[id] == c[id]
  {
    if |rows| == 0 {
    } else {
      var n := |rows| - 1;
      UpsertKeys(c, rows[..n]);
      assert Ids(rows) == Ids(rows[..n]) + {rows[n].chunkId};
    }
  }

  /** What a written id holds afterwards: the last of the rows that carry it. */
  lemma {:induction false} UpsertHoldsLast(c: Collection, rows: seq<Row>, i: nat)
    requires i < |rows|
    requires forall j :: i < j < |rows| ==> rows[j].chunkId != rows[i].chunkId
    ensures rows[i].chunkId in UpsertRows(c, rows)
    ensures UpsertRows(c, rows)[rows[i].chunkId] == rows[i]
  {
    var n := |rows| - 1;
    if i < n {
      assert rows[..n][i] == rows[i];
      UpsertHoldsLast(c, rows[..n], i);
    }
  }

  /** Every row in the result is an old one or one of the rows written. */
  lemma {:induction false} UpsertOrigin(c: Collection, rows: seq<Row>, id: string)
    requires id in UpsertRows(c, rows)
    ensures (id in c && id !in Ids(rows) && UpsertRows(c, rows)[id] == c[id])
         || exists i :: 0 <= i < |rows| && rows[i].chunkId == id && UpsertRows(c, rows)[id] == rows[i]
  {
    if |rows| == 0 {
    } else {
      var n := |rows| - 1;
      if id != rows[n].chunkId {
        UpsertOrigin(c, rows[..n], id);
        if exists i :: 0 <= i < n && rows[..n][i].chunkId == id && UpsertRows(c, rows[..n])[id] == rows[..n][i] {
          var i :| 0 <= i < n && rows[..n][i].chunkId == id && UpsertRows(c, rows[..n])[id] == rows[..n][i];
          assert rows[i] == rows[..n][i];
        } else {
          assert Ids(rows) == Ids(rows[..n]) + {rows[n].chunkId};
        }
      }
    }
  }

  /**
   A delivery that was cut short, or made in full before, leaves no mark: writing some of
   the rows first and then all of them is writing all of them once.
   */
  lemma {:induction false} UpsertAbsorbs(c: Collection, some: seq<Row>, rows: seq<Row>)
    requires Ids(some) <= Ids(rows)
    ensures UpsertRows(UpsertRows(c, some), rows) == UpsertRows(c, rows)
  {
    var once, twice := UpsertRows(c, rows), UpsertRows(UpsertRows(c, some), rows);
    UpsertKeys(c, some);
    UpsertKeys(c, rows);
    UpsertKeys(UpsertRows(c, some), rows);
    forall id | id in once
      ensures once[id] == twice[id]
    {
      if id in Ids(rows) {
        var i :| 0 <= i < |rows| && rows[i].chunkId == id;
        var last := LastIndex(rows, id, i);
        UpsertHoldsLast(c, rows, last);
        UpsertHoldsLast(UpsertRows(c, some), rows, last);
      }
    }
    assert once.Keys == twice.Keys;
  }

  lemma LastIndex(rows: seq<Row>, id: string, from: nat) returns (last: nat)
    requires from < |rows| && rows[from].chunkId == id
    ensures from <= last < |rows| && rows[last].chunkId == id
    ensures forall j :: last < j < |rows| ==> rows[j].chunkId != id
  {
    last := from;
    var k := from + 1;
    while k < |rows|
      invariant from <= last < k <= |rows|
      invariant rows[last].chunkId == id
      invariant forall j :: last < j < k ==> rows[j].chunkId != id
    {
      if rows[k].chunkId == id {
        last := k;
      }
      k := k + 1;
    }
  }

  // ---- The writer ----

  class MilvusWriter {
    const defaultCollection: string
    var collections: Store            // what the server holds
    var colCache: set<string>         // collections this process has already opened

    ghost predicate Valid()
      reads this
    {
      colCache <= collections.Keys
    }

    constructor (defaultCollection: string, existing: Store)
      ensures Valid() && collections == existing && colCache == {}
      ensures this.defaultCollection == defaultCollection
    {
      this.defaultCollection := defaultCollection;
      collections := existing;
      colCache := {};
    }

    /** Open the collection, creating it empty only when the server does not have it. */
    method EnsureCollectionByName(name: string)
      requires Valid()
      modifies this
      ensures Valid()
      ensures colCache == old(colCache) + {name}
      ensures collections == if name in old(collections) then old(collections) else old(collections)[name := map[]]
    {
      if name in colCache {
        return;
      }
      if name !in collections {
        collections := collections[name := map[]];
      }
      colCache := colCache + {name};
    }

    method Upsert(rows: seq<Row>, collection: Option<string>) returns (count: nat)
      requires Valid()
      modifies this
      ensures Valid()
      ensures count == |rows|
      ensures collections == UpsertInto(old(collections), Target(collection), rows)
    {
      if |rows| == 0 {
        return 0;
      }
      var name := Target(collection);
      if name !in colCache {
        EnsureCollectionByName(name);
      }
      collections := collections[name := UpsertRows(collections[name], rows)];
      count := |rows|;
    }

    /** A missing or empty name falls back to the configured collection. */
    function Target(collection: Option<string>): string {
      if collection.Some? && collection.value != "" then collection.value else defaultCollection
    }
  }
}
