/**
 The doc-processor (services/doc-processor/src/processor.py): one raw message is turned into
 chunk events, a DLQ envelope or nothing, and its offset is committed or not.

 What one message does is a *plan*: the ordered list of its durable effects. The imperative
 class is proved to carry out exactly that plan, and a crash leaves a prefix of it.
 */
module DocProcessor {
  import opened Chunker
  import opened Events
  import opened Identity

  /**
   The fixed world a run reads: the text of each document (`Unparsable` when the parser
   rejects the content), the hash and the chunker settings. Content is fixed and parsing is deterministic.
   */
  datatype Parsed = Text(text: string) | Unparsable
  datatype Config = Config(
    parse: RawEvent -> Parsed, hash: string -> string, enc: Encoding, size: int, overlap: int)

  function DocId(cfg: Config, e: RawEvent): string {
    cfg.hash(DocKey(e.sourceType, e.sourceId, e.eventId))
  }

  /** What can go differently between two attempts at one message. */
  datatype Env = Env(
    fetchOk: bool,          // the content fetch returned
    failAt: nat,            // index of the first chunk all of whose produce attempts fail
    flushOk: bool,          // the producer flush did not raise
    delivered: set<nat>,    // after a failed publish: the chunks that reached the topic all the same
    dlqOk: bool,            // the DLQ write did not raise
    stamp: int)             // the clock reading put into the chunk events

  datatype Reason = FetchError | ParseError | ChunkPublishFailed

  datatype Effect =
    | Publish(chunk: ChunkEvent)
    | Dlq(place: Place, reason: Reason)
    | DlqDropped(place: Place)   // the DLQ write raised and the error was only logged
    | Commit(place: Place)

  // ---- The chunk events of one raw event ----

  function ToEvent(c: Chunk, e: RawEvent, total: nat, stamp: int): ChunkEvent {
    ChunkEvent(c.docId, c.Id(), c.index, total, c.text, e.sourceType, e.sourceId, e.contentType, e.tenant, e.metadata,
        stamp)
  }

  function DocChunks(cfg: Config, e: RawEvent): seq<Chunk>
  {
    match cfg.parse(e)
    case Text(text) => Chunks(cfg.enc, cfg.size, cfg.overlap, text, DocId(cfg, e))
    case Unparsable => []
  }

  function ChunkEvents(cfg: Config, e: RawEvent, stamp: int): (es: seq<ChunkEvent>)
    ensures |es| == |DocChunks(cfg, e)|
    ensures forall i :: 0 <= i < |es| ==> es[i] == ToEvent(DocChunks(cfg, e)[i], e, |es|, stamp)
  {
    var cs := DocChunks(cfg, e);
    seq(|cs|, i requires 0 <= i < |cs| => ToEvent(cs[i], e, |cs|, stamp))
  }

  predicate PublishSucceeds(env: Env, chunkCount: nat) {
    env.failAt >= chunkCount && env.flushOk
  }

  // ---- The plan of one message ----

  /** Publish effects of the events i.. : all of them, or only those in the delivered set. */
  function Publishes(es: seq<ChunkEvent>, all: bool, delivered: set<nat>, i: nat): (p: seq<Effect>)
    requires i <= |es|
    ensures forall k :: 0 <= k < |p| ==> p[k].Publish?
    decreases |es| - i
  {
    if i == |es| then []
    else (if all || i in delivered then [Publish(es[i])] else []) + Publishes(es, all, delivered, i + 1)
  }

  function DlqWrite(env: Env, place: Place, reason: Reason): Effect {
    if env.dlqOk then Dlq(place, reason) else DlqDropped(place)
  }

  function Plan(cfg: Config, msg: RawMessage, place: Place, env: Env): seq<Effect>
  {
    match msg
    case RawGarbage => [Commit(place)]
    case Raw(e) =>
      if !env.fetchOk then [DlqWrite(env, place, FetchError), Commit(place)]
      else if cfg.parse(e).Unparsable? then [DlqWrite(env, place, ParseError), Commit(place)]
      else
        var es := ChunkEvents(cfg, e, env.stamp);
        if |es| == 0 then [Commit(place)]
        else
          var published := PublishSucceeds(env, |es|);
          Publishes(es, published, env.delivered, 0)
              + [if published then Commit(place) else DlqWrite(env, place, ChunkPublishFailed)]
  }

  // ---- The durable side of the effects ----

  datatype Topics = Topics(out: seq<ChunkEvent>, dlq: seq<(Place, Reason)>, committed: map<nat, nat>)

  function Apply(t: Topics, e: Effect): Topics {
    match e
    case Publish(c) => t.(out := t.out + [c])
    case Dlq(place, reason) => t.(dlq := t.dlq + [(place, reason)])
    case DlqDropped(_) => t
    case Commit(place) => t.(committed := t.committed[place.partition := place.offset + 1])
  }

  function Run(es: seq<Effect>): Topics {
    if |es| == 0 then Topics([], [], map[]) else Apply(Run(es[..|es| - 1]), es[|es| - 1])
  }

  // ---- The processor itself ----

  class DocumentProcessor {
    const cfg: Config
    const chunker: FixedSizeChunker
    var out: seq<ChunkEvent>          // chunk events that reached the chunk topic
    var dlq: seq<(Place, Reason)>     // DLQ envelopes
    var committed: map<nat, nat>      // next offset to read after a restart, per partition
    ghost var trace: seq<Effect>      // every effect so far, in order

    ghost predicate Valid()
      reads this
    {
      && chunker.size == cfg.size && chunker.overlap == cfg.overlap && chunker.enc == cfg.enc
      && Topics(out, dlq, committed) == Run(trace)
    }

    constructor (cfg: Config)
      ensures Valid() && this.cfg == cfg && trace == []
    {
      this.cfg := cfg;
      this.chunker := new FixedSizeChunker(cfg.size, cfg.overlap, cfg.enc);
      out, dlq, committed, trace := [], [], map[], [];
    }

    ghost method Record(e: Effect)
      requires Topics(out, dlq, committed) == Apply(Run(trace), e)
      requires chunker.size == cfg.size && chunker.overlap == cfg.overlap && chunker.enc == cfg.enc
      modifies this`trace
      ensures Valid() && trace == old(trace) + [e]
    {
      assert (trace + [e])[..|trace + [e]| - 1] == trace;
      trace := trace + [e];
    }

    method CommitOffset(place: Place)
      requires Valid()
      modifies this
      ensures Valid() && trace == old(trace) + [Commit(place)]
    {
      committed := committed[place.partition := place.offset + 1];
      Record(Commit(place));
    }

    /** A DLQ write that raises is logged and forgotten. */
    method RouteToDlq(place: Place, reason: Reason, env: Env)
      requires Valid()
      modifies this
      ensures Valid() && trace == old(trace) + [DlqWrite(env, place, reason)]
    {
      if env.dlqOk {
        dlq := dlq + [(place, reason)];
      }
      Record(DlqWrite(env, place, reason));
    }

    /** Hand every chunk to the producer, then flush; on failure only some chunks got through. */
    method PublishChunks(es: seq<ChunkEvent>, env: Env) returns (published: bool)
      requires Valid()
      modifies this
      ensures Valid()
      ensures published == PublishSucceeds(env, |es|)
      ensures trace == old(trace) + Publishes(es, published, env.delivered, 0)
    {
      published := true;
      var i := 0;
      while i < |es|
        invariant i <= |es| && env.failAt >= i
      {
        if i == env.failAt {
          published := false;
          break;
        }
        i := i + 1;
      }
      published := published && env.flushOk;
      Deliver(es, published, env.delivered);
    }

    /** What the broker makes durable of the events handed to the producer. */
    method Deliver(es: seq<ChunkEvent>, all: bool, delivered: set<nat>)
      requires Valid()
      modifies this
      ensures Valid()
      ensures trace == old(trace) + Publishes(es, all, delivered, 0)
    {
      var i := 0;
      while i < |es|
        invariant i <= |es|
        invariant Valid()
        invariant old(trace) + Publishes(es, all, delivered, 0) == trace + Publishes(es, all, delivered, i)
      {
        if all || i in delivered {
          out := out + [es[i]];
          Record(Publish(es[i]));
        }
        i := i + 1;
      }
    }

    method ProcessMessage(msg: RawMessage, place: Place, env: Env)
      requires Valid()
      modifies this
      ensures Valid()
      ensures trace == old(trace) + Plan(cfg, msg, place, env)
    {
      if msg.RawGarbage? {
        CommitOffset(place);
        return;
      }
      var e := msg.event;
      if !env.fetchOk {
        RouteToDlq(place, FetchError, env);
        CommitOffset(place);
        return;
      }
      if cfg.parse(e).Unparsable? {
        RouteToDlq(place, ParseError, env);
        CommitOffset(place);
        return;
      }
      var chunks := chunker.ChunkText(cfg.parse(e).text, DocId(cfg, e));
      if |chunks| == 0 {
        CommitOffset(place);
        return;
      }
      var es := ChunkEvents(cfg, e, env.stamp);
      var published := PublishChunks(es, env);
      if !published {
        RouteToDlq(place, ChunkPublishFailed, env);
        return;
      }
      CommitOffset(place);
    }
  }
}
