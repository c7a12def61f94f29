/**
 Cached retrieval in the RAG API (services/rag-api/src/app.py): cache lookup, search behind the circuit
 breaker, top-k cut, score filter, cache write. The class is one request after the other; the state machine
 below it lets the requests of all tenants interleave between those stages.
 */
module RagCache {
  import opened Identity
  import opened Options
  import Breaker = CircuitBreaker

  datatype Hit = Hit(chunkId: string, text: string, score: real, sourceType: string, docId: string)

  datatype Request = Request(query: string, topK: int, sourceFilter: Option<string>, minScore: real)

  /** What is hashed into the cache key; the hash is taken to be collision-free. `min_score` is not in it. */
  datatype CacheKey = CacheKey(collection: string, topK: int, query: string, sourceFilter: Option<string>)

  /** What SETEX wrote, and when: the entry is gone one TTL after that. */
  datatype Entry = Entry(hits: seq<Hit>, stored: nat)

  type Cache = map<CacheKey, Entry>

  /** The rows of every collection as they change over time, and the deterministic ranking of a search. */
  datatype World = World(
    rows: (nat, string) -> seq<Hit>,
    rank: (seq<Hit>, string, int, Option<string>) -> seq<Hit>)

  datatype Response = Results(hits: seq<Hit>, cached: bool) | Unavailable

  function MakeKey(request: Request, tenant: string): CacheKey {
    CacheKey(CollectionName(tenant), request.topK, request.query, request.sourceFilter)
  }

  /** Python's `hits[:k]`: a negative k drops that many hits from the end. */
  function Prefix(hits: seq<Hit>, k: int): seq<Hit> {
    if k >= |hits| then hits
    else if k >= 0 then hits[..k]
    else if k + |hits| >= 0 then hits[..k + |hits|]
    else []
  }

  function AtLeast(hits: seq<Hit>, minScore: real): seq<Hit> {
    if |hits| == 0 then []
    else (if hits[0].score >= minScore then [hits[0]] else []) + AtLeast(hits[1..], minScore)
  }

  function Found(world: World, at: nat, key: CacheKey): seq<Hit> {
    Prefix(world.rank(world.rows(at, key.collection), key.query, key.topK, key.sourceFilter), key.topK)
  }

  /** The uncached answer: the filtered top-k search of the key's collection as it stands at a time. */
  function Direct(world: World, at: nat, key: CacheKey, minScore: real): seq<Hit> {
    AtLeast(Found(world, at, key), minScore)
  }

  /** A lookup finds the entry: it is there and its time has not run out. */
  predicate Live(cache: Cache, key: CacheKey, now: nat, ttl: nat) {
    key in cache && now < cache[key].stored + ttl
  }

  // ---- The service, one request at a time ----

  datatype Env = Env(
    lookup: nat,                // the times of the lookup, the search and the write
    search: nat,
    write: nat,
    cacheUp: bool,              // the lookup did not raise
    stored: bool,               // the write of the entry took effect
    start: real, end: real,     // the clock of the breaker around the search
    outcome: Breaker.Outcome)   // what the search does

  function Serve(
    world: World, ttl: nat, cache: Cache, request: Request, tenant: string, env: Env, reached: bool): (Cache, Response)
  {
    var key := MakeKey(request, tenant);
    if env.cacheUp && Live(cache, key, env.lookup, ttl) then (cache, Results(cache[key].hits, true))
    else if !reached then (cache, Unavailable)
    else
      var hits := Direct(world, env.search, key, request.minScore);
      (if env.cacheUp && env.stored then cache[key := Entry(hits, env.write)] else cache, Results(hits, false))
  }

  class RagService {
    const world: World
    const ttl: nat
    const breaker: Breaker.CircuitBreaker
    var cache: Cache

    constructor (world: World, ttl: nat, breaker: Breaker.CircuitBreaker)
      ensures this.world == world && this.ttl == ttl && this.breaker == breaker && cache == map[]
    {
      this.world, this.ttl, this.breaker, this.cache := world, ttl, breaker, map[];
    }

    /** The comprehension over the hits. */
    method Select(hits: seq<Hit>, minScore: real) returns (results: seq<Hit>)
      ensures results == AtLeast(hits, minScore)
    {
      results := [];
      var i := 0;
      while i < |hits|
        invariant i <= |hits|
        invariant results + AtLeast(hits[i..], minScore) == AtLeast(hits, minScore)
      {
        assert hits[i..][1..] == hits[i + 1..];
        if hits[i].score >= minScore {
          results := results + [hits[i]];
        }
        i := i + 1;
      }
    }

    /** A hit leaves the breaker alone; a search the breaker rejects or that raises is answered with 503. */
    method Query(request: Request, tenant: string, env: Env) returns (r: Response)
      modifies this, breaker
      ensures var key := MakeKey(request, tenant);
              var hit := env.cacheUp && Live(old(cache), key, env.lookup, ttl);
              var call := Breaker.Call(breaker.cfg, old(breaker.View()), env.start, env.end, env.outcome);
              && breaker.View() == (if hit then old(breaker.View()) else call.0)
              && (cache, r) == Serve(world, ttl, old(cache), request, tenant, env, call.1 == Breaker.Value)
    {
      var key := MakeKey(request, tenant);
      if env.cacheUp && key in cache && env.lookup < cache[key].stored + ttl {
        return Results(cache[key].hits, true);
      }
      var called := breaker.Invoke(env.start, env.end, env.outcome);
      if called != Breaker.Value {
        return Unavailable;
      }
      var rows := world.rows(env.search, key.collection);
      var hits := Prefix(world.rank(rows, request.query, request.topK, request.sourceFilter), request.topK);
      var results := Select(hits, request.minScore);
      if env.cacheUp && env.stored {
        cache := cache[key := Entry(results, env.write)];
      }
      r := Results(results, false);
    }
  }

  // ---- Requests in flight ----

  datatype Call = Call(request: Request, tenant: string)

  datatype Stage =
    | Arrived
    | Missed(cacheUp: bool)
    | Searched(cacheUp: bool, hits: seq<Hit>, at: nat)

  datatype Flight = Flight(call: Call, arrived: nat, stage: Stage)

  datatype Answered = Answered(call: Call, response: Response)

  datatype State = State(now: nat, cache: Cache, flights: map<nat, Flight>, log: seq<Answered>)

  datatype Step =
    | Arrive(id: nat, call: Call)
    | Get(id: nat, up: bool)
    | Search(id: nat, reached: bool)
    | Store(id: nat, stored: bool, answered: bool)   // an error that is not caught loses the answer
    | Abort(id: nat)                                 // an error outside the two caught ones
    | Evict(key: CacheKey)                           // Redis drops the entry before its time
    | Tick(d: nat)

  const INIT := State(0, map[], map[], [])

  function KeyOf(c: Call): CacheKey {
    MakeKey(c.request, c.tenant)
  }

  function Finish(s: State, id: nat, answer: Response): State
    requires id in s.flights
  {
    s.(flights := s.flights - {id}, log := s.log + [Answered(s.flights[id].call, answer)])
  }

  function NextGet(ttl: nat, s: State, id: nat, up: bool): State
    requires id in s.flights
  {
    var f := s.flights[id];
    if !f.stage.Arrived? then s
    else if up && Live(s.cache, KeyOf(f.call), s.now, ttl)
        then Finish(s, id, Results(s.cache[KeyOf(f.call)].hits, true))
    else s.(flights := s.flights[id := f.(stage := Missed(up))])
  }

  function NextSearch(world: World, s: State, id: nat, reached: bool): State
    requires id in s.flights
  {
    var f := s.flights[id];
    if !f.stage.Missed? then s
    else if !reached then Finish(s, id, Unavailable)
    else
      var hits := Direct(world, s.now, KeyOf(f.call), f.call.request.minScore);
      s.(flights := s.flights[id := f.(stage := Searched(f.stage.cacheUp, hits, s.now))])
  }

  function NextStore(s: State, id: nat, stored: bool, answered: bool): State
    requires id in s.flights
  {
    var f := s.flights[id];
    if !f.stage.Searched? then s
    else
      var s' := if f.stage.cacheUp && stored
                then s.(cache := s.cache[KeyOf(f.call) := Entry(f.stage.hits, s.now)]) else s;
      if answered then Finish(s', id, Results(f.stage.hits, false)) else s'.(flights := s'.flights - {id})
  }

  /** A step that does not apply changes nothing. */
  function Next(world: World, ttl: nat, s: State, step: Step): State {
    match step
    case Arrive(id, call) =>
      if id in s.flights then s else s.(flights := s.flights[id := Flight(call, s.now, Stage.Arrived)])
    case Get(id, up) => if id in s.flights then NextGet(ttl, s, id, up) else s
    case Search(id, reached) => if id in s.flights then NextSearch(world, s, id, reached) else s
    case Store(id, stored, answered) => if id in s.flights then NextStore(s, id, stored, answered) else s
    case Abort(id) => s.(flights := s.flights - {id})
    case Evict(key) => s.(cache := s.cache - {key})
    case Tick(d) => s.(now := s.now + d)
  }

  /** Uninterrupted, the stages of one request do what `Query` does. */
  lemma UninterruptedIsServe(world: World, ttl: nat, s: State, id: nat, call: Call, env: Env, reached: bool)
    requires id !in s.flights && s.now == env.lookup <= env.search <= env.write
    ensures var s1 := Next(world, ttl, Next(world, ttl, s, Arrive(id, call)), Get(id, env.cacheUp));
            var s2 := Next(world, ttl, Next(world, ttl, s1, Tick(env.search - env.lookup)), Search(id, reached));
            var s3 := Next(world, ttl, Next(world, ttl, s2, Tick(env.write - env.search)), Store(id, env.stored, true));
            var (cache, r) := Serve(world, ttl, s.cache, call.request, call.tenant, env, reached);
            s3.cache == cache && s3.log == s.log + [Answered(call, r)] && s3.flights == s.flights
  {
    var arrived := Next(world, ttl, s, Arrive(id, call));
    var f := arrived.flights[id];
    assert arrived.flights - {id} == s.flights;
    var s1 := Next(world, ttl, arrived, Get(id, env.cacheUp));
    if !(env.cacheUp && Live(s.cache, KeyOf(call), s.now, ttl)) {
      assert s1.flights[id] == f.(stage := Missed(env.cacheUp)) && s1.flights - {id} == s.flights;
      var s2 := Next(world, ttl, Next(world, ttl, s1, Tick(env.search - env.lookup)), Search(id, reached));
      assert s2.flights - {id} == s.flights;
    }
  }

  // ---- Runs ----

  ghost predicate IsRun(world: World, ttl: nat, states: seq<State>, steps: seq<Step>) {
    && |states| == |steps| + 1 && states[0] == INIT
    && forall i :: 0 <= i < |steps| ==> states[i + 1] == Next(world, ttl, states[i], steps[i])
  }

  /** Step i writes the entry of the key, for the flight with this id. */
  ghost predicate Writes(states: seq<State>, steps: seq<Step>, i: nat, key: CacheKey) {
    && i < |steps| && i < |states| && steps[i].Store? && steps[i].stored && steps[i].id in states[i].flights
    && var f := states[i].flights[steps[i].id];
       f.stage.Searched? && f.stage.cacheUp && KeyOf(f.call) == key
  }

  /** The flight whose answer step i writes. */
  ghost function Writer(states: seq<State>, steps: seq<Step>, i: nat, key: CacheKey): Flight
    requires Writes(states, steps, i, key)
  {
    states[i].flights[steps[i].id]
  }

  ghost predicate Drops(steps: seq<Step>, i: nat, key: CacheKey) {
    i < |steps| && steps[i] == Evict(key)
  }

  /** Step i is the last before j that writes the key, and nothing evicts it in between. */
  ghost predicate LastWrite(states: seq<State>, steps: seq<Step>, i: nat, j: nat, key: CacheKey) {
    && i < j && Writes(states, steps, i, key)
    && forall k :: i < k < j ==> !Writes(states, steps, k, key) && !Drops(steps, k, key)
  }

  /** The entry is what the last write wrote, and nothing evicted it since. */
  ghost predicate EntryTraced(states: seq<State>, steps: seq<Step>, n: nat, key: CacheKey)
    requires n < |states| && key in states[n].cache
  {
    exists i: nat ::
      && LastWrite(states, steps, i, n, key)
      && states[n].cache[key] == Entry(Writer(states, steps, i, key).stage.hits, states[i].now)
  }

  /** A finished search found what the collection held at its time, between the arrival and now. */
  ghost predicate SearchedWell(world: World, now: nat, f: Flight) {
    && f.arrived <= now
    && (f.stage.Searched? ==>
          && f.arrived <= f.stage.at <= now
          && f.stage.hits == Direct(world, f.stage.at, KeyOf(f.call), f.call.request.minScore))
  }

  ghost predicate FlightsSane(world: World, s: State) {
    forall id :: id in s.flights ==> SearchedWell(world, s.now, s.flights[id])
  }

  lemma NextKeepsFlights(world: World, ttl: nat, s: State, step: Step)
    requires FlightsSane(world, s)
    ensures FlightsSane(world, Next(world, ttl, s, step))
  {}

  lemma {:induction false} RunKeepsFlights(world: World, ttl: nat, states: seq<State>, steps: seq<Step>, n: nat)
    requires IsRun(world, ttl, states, steps) && n < |states|
    ensures FlightsSane(world, states[n])
  {
    if n == 0 {
    } else {
      RunKeepsFlights(world, ttl, states, steps, n - 1);
      NextKeepsFlights(world, ttl, states[n - 1], steps[n - 1]);
    }
  }

  /** What one step does to the entry of a key. */
  lemma NextEntry(world: World, ttl: nat, states: seq<State>, steps: seq<Step>, n: nat, key: CacheKey)
    requires IsRun(world, ttl, states, steps) && n < |steps|
    ensures var s, t := states[n], states[n + 1];
            if Writes(states, steps, n, key) then
              key in t.cache && t.cache[key] == Entry(Writer(states, steps, n, key).stage.hits, s.now)
            else if Drops(steps, n, key) then key !in t.cache
            else (key in t.cache <==> key in s.cache) && (key in s.cache ==> t.cache[key] == s.cache[key])
  {}

  lemma LastWriteStays(states: seq<State>, steps: seq<Step>, i: nat, n: nat, key: CacheKey)
    requires !Writes(states, steps, n, key) && !Drops(steps, n, key)
    ensures LastWrite(states, steps, i, n, key) ==> LastWrite(states, steps, i, n + 1, key)
    ensures LastWrite(states, steps, i, n + 1, key) ==> LastWrite(states, steps, i, n, key)
  {
    if LastWrite(states, steps, i, n + 1, key) {
      assert i != n;
    }
  }

  lemma {:induction false} RunTracesCache(
    world: World, ttl: nat, states: seq<State>, steps: seq<Step>, n: nat, key: CacheKey)
    requires IsRun(world, ttl, states, steps) && n < |states|
    ensures key in states[n].cache ==> EntryTraced(states, steps, n, key)
    ensures (exists i: nat :: LastWrite(states, steps, i, n, key)) ==> key in states[n].cache
  {
    if n == 0 {
    } else {
      RunTracesCache(world, ttl, states, steps, n - 1, key);
      NextEntry(world, ttl, states, steps, n - 1, key);
      if Writes(states, steps, n - 1, key) {
        assert LastWrite(states, steps, n - 1, n, key);
      } else if Drops(steps, n - 1, key) {
        assert forall i: nat :: !LastWrite(states, steps, i, n, key);
      } else {
        forall i: nat
          ensures LastWrite(states, steps, i, n - 1, key) <==> LastWrite(states, steps, i, n, key)
        {
          LastWriteStays(states, steps, i, n - 1, key);
        }
        if key in states[n].cache {
          var i: nat :| LastWrite(states, steps, i, n - 1, key)
                     && states[n - 1].cache[key] == Entry(Writer(states, steps, i, key).stage.hits, states[i].now);
          assert LastWrite(states, steps, i, n, key);
        }
      }
    }
  }

  // ---- Where answers come from ----

  /** Step j of the run gives the answer. */
  ghost predicate GivenAt(states: seq<State>, j: nat, a: Answered) {
    j + 1 < |states| && states[j + 1].log == states[j].log + [a]
  }

  /** Every answer of a run is given by one of its steps. */
  lemma {:induction false} AnswerHasStep(world: World, ttl: nat, states: seq<State>, steps: seq<Step>, n: nat, k: nat)
    returns (j: nat)
    requires IsRun(world, ttl, states, steps) && n < |states| && k < |states[n].log|
    ensures j < n && GivenAt(states, j, states[n].log[k])
  {
    assert n > 0;
    if k < |states[n - 1].log| {
      j := AnswerHasStep(world, ttl, states, steps, n - 1, k);
    } else {
      j := n - 1;
    }
  }

  /** The direct answer to a request of one's own, searched between its arrival and now. */
  ghost predicate OwnSearch(world: World, now: nat, f: Flight, a: Answered) {
    && f.call == a.call && f.stage.Searched? && f.arrived <= f.stage.at <= now
    && a.response.Results? && a.response.hits == Direct(world, f.stage.at, KeyOf(a.call), a.call.request.minScore)
  }

  /** What a request of the same tenant searched and stored that differs from this one in the minimum score at most. */
  ghost predicate StoredSearch(world: World, stored: nat, f: Flight, a: Answered) {
    && f.call.tenant == a.call.tenant
    && f.call.request == a.call.request.(minScore := f.call.request.minScore)
    && f.stage.Searched? && f.arrived <= f.stage.at <= stored
    && a.response.Results? && a.response.hits == Direct(world, f.stage.at, KeyOf(a.call), f.call.request.minScore)
  }

  /**
   Where every answer comes from, on every interleaving of tenants, expiries, evictions, outages and lost requests and
   without any assumption on the requests. An uncached answer is its own request's direct search, made between its
   arrival and its answer. A cached one is the direct search of the asking tenant's collection by the request that
   wrote the key last, not evicted since, less than one TTL ago; that request is of the same tenant and differs in the
   minimum score at most.
   */
  lemma AnswersAreOwnSearches(world: World, ttl: nat, states: seq<State>, steps: seq<Step>, j: nat, a: Answered)
    requires IsRun(world, ttl, states, steps) && GivenAt(states, j, a) && a.response.Results?
    ensures !a.response.cached ==>
              exists id :: id in states[j].flights && OwnSearch(world, states[j].now, states[j].flights[id], a)
    ensures a.response.cached ==>
              exists i: nat ::
                && LastWrite(states, steps, i, j, KeyOf(a.call)) && states[j].now < states[i].now + ttl
                && StoredSearch(world, states[i].now, Writer(states, steps, i, KeyOf(a.call)), a)
  {
    RunKeepsFlights(world, ttl, states, steps, j);
    var s, key := states[j], KeyOf(a.call);
    assert states[j + 1].log[|s.log|] == a;
    if a.response.cached {
      var id := steps[j].id;
      assert Live(s.cache, key, s.now, ttl) && a == Answered(s.flights[id].call, Results(s.cache[key].hits, true));
      RunTracesCache(world, ttl, states, steps, j, key);
      var i: nat :| LastWrite(states, steps, i, j, key)
                 && s.cache[key] == Entry(Writer(states, steps, i, key).stage.hits, states[i].now);
      RunKeepsFlights(world, ttl, states, steps, i);
      var f := Writer(states, steps, i, key);
      CollectionNameInjective(f.call.tenant, a.call.tenant);
      assert StoredSearch(world, states[i].now, f, a);
    } else {
      assert OwnSearch(world, s.now, s.flights[steps[j].id], a);
    }
  }

  /**
   When a lookup hits: exactly when the key was last written less than one TTL ago and has not been evicted since. So a
   later write replaces an earlier one, and an entry is never served beyond its time.
   */
  lemma HitsExactlyWhen(world: World, ttl: nat, states: seq<State>, steps: seq<Step>, j: nat)
    requires IsRun(world, ttl, states, steps) && j < |steps| && steps[j].Get? && steps[j].up
    requires steps[j].id in states[j].flights && states[j].flights[steps[j].id].stage.Arrived?
    ensures var c := states[j].flights[steps[j].id].call;
            (exists a :: GivenAt(states, j, a) && a.call == c && a.response.Results? && a.response.cached)
            <==> exists i: nat :: LastWrite(states, steps, i, j, KeyOf(c)) && states[j].now < states[i].now + ttl
  {
    var s := states[j];
    var c := s.flights[steps[j].id].call;
    var key := KeyOf(c);
    RunTracesCache(world, ttl, states, steps, j, key);
    if exists a :: GivenAt(states, j, a) && a.call == c && a.response.Results? && a.response.cached {
      var a :| GivenAt(states, j, a) && a.call == c && a.response.Results? && a.response.cached;
      AnswersAreOwnSearches(world, ttl, states, steps, j, a);
    }
    if i: nat :| LastWrite(states, steps, i, j, key) && s.now < states[i].now + ttl {
      var k: nat :| LastWrite(states, steps, k, j, key)
                 && s.cache[key] == Entry(Writer(states, steps, k, key).stage.hits, states[k].now);
      assert i == k;
      assert GivenAt(states, j, Answered(c, Results(s.cache[key].hits, true)));
    }
  }

  /** Requests that share a key share the minimum score, which the key leaves out. */
  ghost predicate ScoresShared(steps: seq<Step>) {
    forall c, d :: Asked(steps, c) && Asked(steps, d) && KeyOf(c) == KeyOf(d) ==>
        c.request.minScore == d.request.minScore
  }

  ghost predicate Asked(steps: seq<Step>, c: Call) {
    exists id :: Arrive(id, c) in steps
  }

  lemma {:induction false} FlightsAreAsked(
    world: World, ttl: nat, states: seq<State>, steps: seq<Step>, n: nat, id: nat)
    requires IsRun(world, ttl, states, steps) && n < |states| && id in states[n].flights
    ensures Asked(steps, states[n].flights[id].call)
  {
    assert n > 0;
    if id in states[n - 1].flights && states[n - 1].flights[id].call == states[n].flights[id].call {
      FlightsAreAsked(world, ttl, states, steps, n - 1, id);
    } else {
      assert steps[n - 1] == Arrive(id, states[n].flights[id].call);
    }
  }

  /**
   Cache transparency. When shared keys mean shared minimum scores, every answer is the asker's own direct search: as of
   a time within the request for an uncached one, and as of the search whose result was stored last, less than
   one TTL ago, for a cached one.
   */
  lemma CacheTransparent(world: World, ttl: nat, states: seq<State>, steps: seq<Step>, j: nat, a: Answered)
    requires IsRun(world, ttl, states, steps) && GivenAt(states, j, a) && a.response.Results? && ScoresShared(steps)
    ensures !a.response.cached ==>
              exists id :: id in states[j].flights && OwnSearch(world, states[j].now, states[j].flights[id], a)
    ensures a.response.cached ==>
              exists i: nat ::
                && LastWrite(states, steps, i, j, KeyOf(a.call)) && states[j].now < states[i].now + ttl
                && var f := Writer(states, steps, i, KeyOf(a.call));
                   f.call == a.call && OwnSearch(world, states[i].now, f, a)
  {
    AnswersAreOwnSearches(world, ttl, states, steps, j, a);
    if a.response.cached {
      var key := KeyOf(a.call);
      var i: nat :| LastWrite(states, steps, i, j, key) && states[j].now < states[i].now + ttl
                 && StoredSearch(world, states[i].now, Writer(states, steps, i, key), a);
      FlightsAreAsked(world, ttl, states, steps, i, steps[i].id);
      AnswererIsAsked(world, ttl, states, steps, j, a);
      var f := Writer(states, steps, i, key);
      assert KeyOf(f.call) == key && f.call.request.minScore == a.call.request.minScore;
      assert f.call.request == a.call.request;
    }
  }

  lemma AnswererIsAsked(world: World, ttl: nat, states: seq<State>, steps: seq<Step>, j: nat, a: Answered)
    requires IsRun(world, ttl, states, steps) && GivenAt(states, j, a)
    ensures Asked(steps, a.call)
  {
    assert states[j + 1].log[|states[j].log|] == a;
    FlightsAreAsked(world, ttl, states, steps, j, steps[j].id);
  }

  // ---- Why the minimum score has to be shared ----

  /** The answer the second of two requests gets when the first has just filled the cache. */
  function SecondAnswer(world: World, ttl: nat, first: Call, second: Call): Response {
    var env := Env(0, 0, 0, true, true, 0.0, 0.0, Breaker.Returns);
    var (cache, _) := Serve(world, ttl, map[], first.request, first.tenant, env, true);
    Serve(world, ttl, cache, second.request, second.tenant, env, true).1
  }

  ghost predicate SecondIsDirect(world: World, ttl: nat, first: Call, second: Call) {
    var r := SecondAnswer(world, ttl, first, second);
    r.Results? && r.hits == Direct(world, 0, KeyOf(second), second.request.minScore)
  }

  /** A world in which every search finds the same hits at all times. */
  function Always(hits: seq<Hit>): World {
    World((at: nat, collection: string) => hits, (rows: seq<Hit>, q: string, k: int, sf: Option<string>) => rows)
  }

  /** Hits of which one, with the given score, survives the cut to k. */
  function OneLeft(k: int, score: real): seq<Hit> {
    var h := Hit("", "", score, "", "");
    seq(if k >= 0 then 1 else 1 - k, _ => h)
  }

  lemma OneIsLeft(k: int, score: real)
    requires k != 0
    ensures Prefix(OneLeft(k, score), k) == [Hit("", "", score, "", "")]
  {}

  lemma FilterOne(h: Hit, minScore: real)
    ensures AtLeast([h], minScore) == if h.score >= minScore then [h] else []
  {
    assert [h][1..] == [];
  }

  lemma ScoresTellApart(ttl: nat, first: Call, second: Call)
    requires KeyOf(first) == KeyOf(second) && ttl > 0
    requires first.request.minScore != second.request.minScore && second.request.topK != 0
    ensures exists world: World :: !SecondIsDirect(world, ttl, first, second)
  {
    var m1, m2 := first.request.minScore, second.request.minScore;
    var score := if m1 < m2 then m1 else m2;
    var k := second.request.topK;
    var world := Always(OneLeft(k, score));
    OneIsLeft(k, score);
    var h := Hit("", "", score, "", "");
    assert Found(world, 0, KeyOf(second)) == [h];
    FilterOne(h, m1);
    FilterOne(h, m2);
    assert !SecondIsDirect(world, ttl, first, second);
  }

  /**
   After the first request, the second gets its own direct answer in every world exactly when the keys differ, the
   minimum scores agree, or both ask for no hits at all (or entries have no lifetime).
   */
  lemma SecondAnswerIff(ttl: nat, first: Call, second: Call)
    ensures (forall world: World :: SecondIsDirect(world, ttl, first, second))
        <==> ttl == 0 || KeyOf(first) != KeyOf(second)
             || first.request.minScore == second.request.minScore
             || second.request.topK == 0
  {
    if ttl > 0 && KeyOf(first) == KeyOf(second) && first.request.minScore != second.request.minScore
        && second.request.topK != 0 {
      ScoresTellApart(ttl, first, second);
    } else {
      forall world: World ensures SecondIsDirect(world, ttl, first, second) {
        if second.request.topK == 0 && KeyOf(first) == KeyOf(second) {
          assert Found(world, 0, KeyOf(second)) == [];
        }
      }
    }
  }
}
