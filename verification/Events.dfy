/**
 The messages that travel on the Kafka topics, and the per-partition offsets of a consumer
 group (services/doc-processor/src/events.py, services/embedding-worker/src/events.py).
 */
module Events {

  datatype RawEvent = RawEvent(
    sourceType: string,
    sourceId: string,
    contentRef: string,
    contentType: string,
    tenant: string,
    metadata: map<string, string>,
    eventId: string)

  /** A record of the raw topic; the payload may fail to decode. */
  datatype RawMessage = Raw(event: RawEvent) | RawGarbage

  datatype ChunkEvent = ChunkEvent(
    docId: string,
    chunkId: string,
    chunkIndex: nat,
    totalChunks: nat,
    text: string,
    sourceType: string,
    sourceId: string,
    contentType: string,
    tenant: string,
    metadata: map<string, string>,
    createdAt: int)

  /** A record of the chunk topic; the payload may fail to decode. */
  datatype ChunkMessage = ChunkMsg(event: ChunkEvent) | ChunkGarbage

  /** Where a record sits in its topic. */
  datatype Place = Place(partition: nat, offset: nat)

  /** A partition's offset; a partition nobody touched is at 0. */
  function At(offsets: map<nat, nat>, partition: nat): nat {
    if partition in offsets then offsets[partition] else 0
  }

  /** The same chunk event, whenever it was stamped. */
  predicate SameChunk(a: ChunkEvent, b: ChunkEvent) {
    a.(createdAt := 0) == b.(createdAt := 0)
  }
}
