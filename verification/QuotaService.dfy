/**
 The quota service (services/quota-service/src/quota_service.py) on a Redis keyspace of
 integers. `check_quota` is three separate Redis steps at most: an atomic INCRBY+EXPIRE, a
 local comparison, and a DECRBY rollback; any Redis error makes it fail open.
 */
module QuotaService {
  import opened Identity
  import opened Options

  type Keyspace = map<string, int>

  datatype Status = Allowed | Denied | Unlimited

  datatype CheckResult = CheckResult(status: Status, currentUsage: int, limit: int)

  datatype RecordResult = RecordResult(newTotal: int, deduped: bool)

  datatype Usage = Usage(current: int, limit: int, unlimited: bool)

  /** A Redis command raises before or after the server executed it, or not at all. */
  datatype Outcome = Ok | RaisedBefore | RaisedAfter

  function Value(redis: Keyspace, key: string): int {
    if key in redis then redis[key] else 0
  }

  function Add(redis: Keyspace, key: string, amount: int): Keyspace {
    redis[key := Value(redis, key) + amount]
  }

  function AddIf(redis: Keyspace, key: string, amount: int, o: Outcome): Keyspace {
    if o == RaisedBefore then redis else Add(redis, key, amount)
  }

  const DEDUP_TTL: nat := 86400

  function Ttl(metric: string): nat {
    match metric
    case "API_CALLS_PER_MINUTE" => 60
    case "BYTES_PER_MONTH" => 86400 * 31
    case "GPU_SECONDS_PER_MONTH" => 86400 * 31
    case "VECTORS_STORED" => 86400 * 365
    case _ => 86400
  }

  class QuotaService {
    const limits: map<(string, string), int>      // a missing pair means no limit
    var redis: Keyspace
    var ttls: map<string, nat>                    // seconds given by the last EXPIRE or SETEX of a key
    var skipped: nat                              // fail-open answers

    constructor (limits: map<(string, string), int>, redis: Keyspace)
      ensures this.limits == limits && this.redis == redis && ttls == map[] && skipped == 0
    {
      this.limits := limits;
      this.redis := redis;
      this.ttls := map[];
      this.skipped := 0;
    }

    function Limit(tenant: string, metric: string): Option<int> {
      if (tenant, metric) in limits then Some(limits[(tenant, metric)]) else None
    }

    /**
     A call with nobody else on the key. Without Redis errors the counter moves by the amount exactly
     when the answer is ALLOWED; a denied call leaves it where it was (but has refreshed the
     expiry); an error is answered with ALLOWED and counted.
     */
    method CheckQuota(tenant: string, metric: string, amount: int, incrementOnAllow: bool, incr: Outcome, decr: Outcome)
      returns (result: CheckResult)
      modifies this
      ensures Limit(tenant, metric) == None ==>
                result == CheckResult(Unlimited, 0, 0) && redis == old(redis) && ttls == old(ttls)
                    && skipped == old(skipped)
      ensures Limit(tenant, metric).Some? ==>
                var limit := Limit(tenant, metric).value;
                var key := QuotaKey(tenant, metric);
                var before := Value(old(redis), key);
                && result.limit == limit
                && (result.status == Denied ==>
                      before + amount > limit && skipped == old(skipped) && result.currentUsage == before
                      && forall k :: Value(redis, k) == Value(old(redis), k))
                && (skipped > old(skipped) ==> result.status == Allowed && result.currentUsage == 0)
                && (skipped == old(skipped) && result.status == Allowed ==>
                      before + amount <= limit
                      && result.currentUsage == (if incrementOnAllow then before + amount else before)
                      && redis == if incrementOnAllow then Add(old(redis), key, amount) else old(redis))
                && (skipped > old(skipped) <==>
                      incr != Ok || (incrementOnAllow && before + amount > limit && decr != Ok))
                && result.status != Unlimited
                && skipped <= old(skipped) + 1
                && (skipped > old(skipped) ==>
                      redis == (if !incrementOnAllow then old(redis)
                                else if incr != Ok then AddIf(old(redis), key, amount, incr)
                                else AddIf(Add(old(redis), key, amount), key, -amount, decr)))
                && ttls == if incrementOnAllow && incr != RaisedBefore then old(ttls)[key := Ttl(metric)] else old(ttls)
    {
      var maybe := Limit(tenant, metric);
      if maybe.None? {
        return CheckResult(Unlimited, 0, 0);
      }
      var limit := maybe.value;
      var key := QuotaKey(tenant, metric);
      if incrementOnAllow {
        redis := AddIf(redis, key, amount, incr);
        if incr != RaisedBefore {
          ttls := ttls[key := Ttl(metric)];
        }
        if incr != Ok {
          skipped := skipped + 1;
          return CheckResult(Allowed, 0, limit);
        }
        var current := redis[key];
        if current > limit {
          redis := AddIf(redis, key, -amount, decr);
          if decr != Ok {
            skipped := skipped + 1;
            return CheckResult(Allowed, 0, limit);
          }
          return CheckResult(Denied, current - amount, limit);
        }
        return CheckResult(Allowed, current, limit);
      } else {
        if incr != Ok {
          skipped := skipped + 1;
          return CheckResult(Allowed, 0, limit);
        }
        var current := Value(redis, key);
        if current + amount > limit {
          return CheckResult(Denied, current, limit);
        }
        return CheckResult(Allowed, current, limit);
      }
    }

    /**
     Duplicate event ids are ignored while their marker lives, a day from its SETEX; `crash` stops between SETEX and
     INCRBY. The counter itself gets no expiry here.
     */
    method RecordUsage(tenant: string, metric: string, amount: int, eventId: string, crash: bool)
      returns (result: Option<RecordResult>)
      modifies this
      ensures redis == Record(old(redis), Call(tenant, metric, amount, eventId, crash))
      ensures ttls == if DedupKey(eventId) in old(redis) then old(ttls) else old(ttls)[DedupKey(eventId) := DEDUP_TTL]
      ensures skipped == old(skipped)
      ensures result ==
              if DedupKey(eventId) in old(redis) then Some(RecordResult(0, true))
              else if crash then None
              else Some(RecordResult(Value(old(redis), QuotaKey(tenant, metric)) + amount, false))
    {
      var dedupKey := DedupKey(eventId);
      if dedupKey in redis {
        return Some(RecordResult(0, true));
      }
      redis := redis[dedupKey := 1];
      ttls := ttls[dedupKey := DEDUP_TTL];
      if crash {
        return None;
      }
      var key := QuotaKey(tenant, metric);
      DedupKeyIsNoQuotaKey(eventId, tenant, metric);
      redis := redis[key := Value(redis, key) + amount];
      return Some(RecordResult(redis[key], false));
    }

    /** The counter itself, below zero if that is where it stands; no limit reads as 0. */
    method GetUsage(tenant: string, metric: string) returns (u: Usage)
      ensures u.current == Value(redis, QuotaKey(tenant, metric))
      ensures u.unlimited <==> Limit(tenant, metric) == None
      ensures u.limit == Limit(tenant, metric).GetOr(0)
    {
      var limit := Limit(tenant, metric);
      u := Usage(Value(redis, QuotaKey(tenant, metric)), limit.GetOr(0), limit.None?);
    }
  }

  // ---- record_usage as a step on the keyspace ----

  datatype Call = Call(tenant: string, metric: string, amount: int, eventId: string, crash: bool)

  function Record(redis: Keyspace, c: Call): Keyspace {
    if DedupKey(c.eventId) in redis then redis
    else if c.crash then redis[DedupKey(c.eventId) := 1]
    else Add(redis[DedupKey(c.eventId) := 1], QuotaKey(c.tenant, c.metric), c.amount)
  }
}
