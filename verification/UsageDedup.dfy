/**
 What the dedup marker of `record_usage` achieves over a whole sequence of non-overlapping
 calls inside the marker's lifetime, including calls that crash between SETEX and INCRBY.
 */
module UsageDedup {
  import opened Identity
  import opened QuotaService

  function RecordAll(redis: Keyspace, calls: seq<Call>): Keyspace {
    if |calls| == 0 then redis else Record(RecordAll(redis, calls[..|calls| - 1]), calls[|calls| - 1])
  }

  /** The call is the first one with its event id. */
  predicate IsFirst(calls: seq<Call>, i: nat)
    requires i < |calls|
  {
    forall j :: 0 <= j < i ==> calls[j].eventId != calls[i].eventId
  }

  /** What the first calls of distinct events add up to on one tenant and metric, crashed ones included or not. */
  function Credited(calls: seq<Call>, tenant: string, metric: string, withCrashed: bool): int {
    if |calls| == 0 then 0
    else
      var n := |calls| - 1;
      var c := calls[n];
      var counts := IsFirst(calls, n) && c.tenant == tenant && c.metric == metric && (withCrashed || !c.crash);
      Credited(calls[..n], tenant, metric, withCrashed) + if counts then c.amount else 0
  }

  lemma {:induction false} MarkersAreSeenIds(calls: seq<Call>, id: string)
    ensures DedupKey(id) in RecordAll(map[], calls) <==> exists i :: 0 <= i < |calls| && calls[i].eventId == id
  {
    if |calls| == 0 {
    } else {
      var n := |calls| - 1;
      var c := calls[n];
      MarkersAreSeenIds(calls[..n], id);
      DedupKeyIsNoQuotaKey(id, c.tenant, c.metric);
      if DedupKey(id) == DedupKey(c.eventId) {
        DedupKeyInjective(id, c.eventId);
        assert calls[n].eventId == id;
      }
      assert forall i :: 0 <= i < n ==> calls[..n][i] == calls[i];
    }
  }

  /**
   Usage dedup. After any sequence of calls each counter is the sum of the amounts of the first
   uncrashed calls of distinct event ids made for that very tenant and metric.
   */
  lemma {:induction false} CountersAreFirstCalls(calls: seq<Call>, tenant: string, metric: string)
    requires ':' !in metric && forall c :: c in calls ==> ':' !in c.metric
    ensures Value(RecordAll(map[], calls), QuotaKey(tenant, metric)) == Credited(calls, tenant, metric, false)
  {
    if |calls| == 0 {
    } else {
      var n := |calls| - 1;
      var c := calls[n];
      var before := RecordAll(map[], calls[..n]);
      CountersAreFirstCalls(calls[..n], tenant, metric);
      MarkersAreSeenIds(calls[..n], c.eventId);
      DedupKeyIsNoQuotaKey(c.eventId, tenant, metric);
      DedupKeyIsNoQuotaKey(c.eventId, c.tenant, c.metric);
      assert forall i :: 0 <= i < n ==> calls[..n][i] == calls[i];
      assert DedupKey(c.eventId) in before <==> !IsFirst(calls, n);
      if QuotaKey(tenant, metric) == QuotaKey(c.tenant, c.metric) {
        QuotaKeyInjective(tenant, metric, c.tenant, c.metric);
      }
    }
  }

  /**
   With non-negative amounts, crashes between SETEX and INCRBY only lose usage: the counter is at most what the first
   calls of distinct events ask for, and exactly that when none of the first calls crashed.
   */
  lemma {:induction false} CrashesOnlyLose(calls: seq<Call>, tenant: string, metric: string)
    requires ':' !in metric && forall c :: c in calls ==> ':' !in c.metric && c.amount >= 0
    ensures Value(RecordAll(map[], calls), QuotaKey(tenant, metric)) <= Credited(calls, tenant, metric, true)
    ensures (forall i :: 0 <= i < |calls| && IsFirst(calls, i) ==> !calls[i].crash) ==>
              Value(RecordAll(map[], calls), QuotaKey(tenant, metric)) == Credited(calls, tenant, metric, true)
  {
    CountersAreFirstCalls(calls, tenant, metric);
    CrashedCredit(calls, tenant, metric);
  }

  lemma {:induction false} CrashedCredit(calls: seq<Call>, tenant: string, metric: string)
    requires forall c :: c in calls ==> c.amount >= 0
    ensures Credited(calls, tenant, metric, false) <= Credited(calls, tenant, metric, true)
    ensures (forall i :: 0 <= i < |calls| && IsFirst(calls, i) ==> !calls[i].crash) ==>
              Credited(calls, tenant, metric, false) == Credited(calls, tenant, metric, true)
  {
    if |calls| == 0 {
    } else {
      var n := |calls| - 1;
      assert calls[n] in calls;
      assert forall c :: c in calls[..n] ==> c in calls;
      CrashedCredit(calls[..n], tenant, metric);
      if forall i :: 0 <= i < |calls| && IsFirst(calls, i) ==> !calls[i].crash {
        forall i | 0 <= i < n && IsFirst(calls[..n], i)
          ensures !calls[..n][i].crash
        {
          assert IsFirst(calls, i);
        }
      }
    }
  }

  /** The total over all counters, given every tenant and metric that occurs in the calls once. */
  function Total(redis: Keyspace, pairs: seq<(string, string)>): int {
    if |pairs| == 0 then 0
    else Total(redis, pairs[..|pairs| - 1]) + Value(redis, QuotaKey(pairs[|pairs| - 1].0, pairs[|pairs| - 1].1))
  }

  function FirstAmounts(calls: seq<Call>): int {
    if |calls| == 0 then 0
    else
      var n := |calls| - 1;
      FirstAmounts(calls[..n]) + if IsFirst(calls, n) && !calls[n].crash then calls[n].amount else 0
  }

  function CreditedSum(calls: seq<Call>, pairs: seq<(string, string)>): int {
    if |pairs| == 0 then 0
    else
      var p := pairs[|pairs| - 1];
      CreditedSum(calls, pairs[..|pairs| - 1]) + Credited(calls, p.0, p.1, false)
  }

  lemma {:induction false} CreditedSumStep(calls: seq<Call>, pairs: seq<(string, string)>)
    requires |calls| > 0
    requires forall i, j :: 0 <= i < j < |pairs| ==> pairs[i] != pairs[j]
    ensures var n := |calls| - 1;
            var c := calls[n];
            CreditedSum(calls, pairs) == CreditedSum(calls[..n], pairs)
              + if IsFirst(calls, n) && !c.crash && (c.tenant, c.metric) in pairs then c.amount else 0
  {
    if |pairs| == 0 {
    } else {
      CreditedSumStep(calls, pairs[..|pairs| - 1]);
      assert pairs == pairs[..|pairs| - 1] + [pairs[|pairs| - 1]];
    }
  }

  lemma {:induction false} CreditedSumAll(calls: seq<Call>, pairs: seq<(string, string)>)
    requires forall i, j :: 0 <= i < j < |pairs| ==> pairs[i] != pairs[j]
    requires forall c :: c in calls ==> (c.tenant, c.metric) in pairs
    ensures CreditedSum(calls, pairs) == FirstAmounts(calls)
  {
    if |calls| == 0 {
      CreditedSumNone(pairs);
    } else {
      CreditedSumStep(calls, pairs);
      assert calls[|calls| - 1] in calls;
      CreditedSumAll(calls[..|calls| - 1], pairs);
    }
  }

  lemma {:induction false} CreditedSumNone(pairs: seq<(string, string)>)
    ensures CreditedSum([], pairs) == 0
  {
    if |pairs| == 0 {
    } else {
      CreditedSumNone(pairs[..|pairs| - 1]);
    }
  }

  lemma {:induction false} TotalIsCredited(calls: seq<Call>, pairs: seq<(string, string)>)
    requires forall c :: c in calls ==> ':' !in c.metric
    requires forall p :: p in pairs ==> ':' !in p.1
    ensures Total(RecordAll(map[], calls), pairs) == CreditedSum(calls, pairs)
  {
    if |pairs| == 0 {
    } else {
      var p := pairs[|pairs| - 1];
      assert p in pairs;
      TotalIsCredited(calls, pairs[..|pairs| - 1]);
      CountersAreFirstCalls(calls, p.0, p.1);
    }
  }

  /**
   The total over all counters is the sum over distinct event ids of the first call's amount, crashed calls adding
   nothing.
   */
  lemma TotalUsage(calls: seq<Call>, pairs: seq<(string, string)>)
    requires forall c :: c in calls ==> ':' !in c.metric && (c.tenant, c.metric) in pairs
    requires forall i, j :: 0 <= i < j < |pairs| ==> pairs[i] != pairs[j]
    requires forall p :: p in pairs ==> ':' !in p.1
    ensures Total(RecordAll(map[], calls), pairs) == FirstAmounts(calls)
  {
    TotalIsCredited(calls, pairs);
    CreditedSumAll(calls, pairs);
  }
}
