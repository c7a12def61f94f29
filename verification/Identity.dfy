/**
 The identifiers the pipeline builds by string formatting: document ids, chunk ids,
 collection names and quota keys. Everything keyed by one of these strings is only as
 safe as the string is injective, so injectivity is proved here, once, for each of them.
 */
module Identity {

  // ---- Decimal rendering, as an f-string renders a non-negative int ----

  function DigitChar(d: nat): (c: char)
    requires d < 10
    ensures c != ':'
  {
    ('0' as int + d) as char
  }

  function Decimal(n: nat): (s: string)
    ensures |s| > 0
    ensures ':' !in s
  {
    if n < 10 then [DigitChar(n)] else Decimal(n / 10) + [DigitChar(n % 10)]
  }

  lemma {:induction false} DecimalInjective(m: nat, n: nat)
    requires Decimal(m) == Decimal(n)
    ensures m == n
  {
    var s, t := Decimal(m), Decimal(n);
    assert s[|s| - 1] == DigitChar(m % 10);
    assert t[|t| - 1] == DigitChar(n % 10);
    if m >= 10 && n >= 10 {
      assert Decimal(m / 10) == s[..|s| - 1];
      assert Decimal(n / 10) == t[..|t| - 1];
      DecimalInjective(m / 10, n / 10);
    }
  }

  // ---- Splitting at the last colon ----

  lemma LastColonSplit(a: string, b: string, c: string, d: string)
    requires ':' !in b && ':' !in d
    requires a + ":" + b == c + ":" + d
    ensures a == c && b == d
  {
    var s, t := a + ":" + b, c + ":" + d;
    assert s[|a|] == ':' && t[|c|] == ':';
    // the colon after a is the last one in s, and likewise for c in t
    assert forall i :: |a| < i < |s| ==> s[i] == b[i - |a| - 1] && s[i] != ':';
    assert forall i :: |c| < i < |t| ==> t[i] == d[i - |c| - 1] && t[i] != ':';
    assert |a| == |c|;
    assert a == s[..|a|] && c == t[..|c|];
    assert b == s[|a| + 1..] && d == t[|c| + 1..];
  }

  // ---- Chunk ids ----

  function ChunkId(docId: string, index: nat): string {
    docId + ":" + Decimal(index)
  }

  /** A chunk id determines both the document and the position of the chunk in it. */
  lemma ChunkIdInjective(doc1: string, index1: nat, doc2: string, index2: nat)
    requires ChunkId(doc1, index1) == ChunkId(doc2, index2)
    ensures doc1 == doc2 && index1 == index2
  {
    LastColonSplit(doc1, Decimal(index1), doc2, Decimal(index2));
    DecimalInjective(index1, index2);
  }

  // ---- Document ids ----

  /** The text that is hashed into a document id. */
  function DocKey(sourceType: string, sourceId: string, eventId: string): string {
    sourceType + ":" + sourceId + ":" + eventId
  }

  ghost predicate Injective(hash: string -> string) {
    forall x, y :: hash(x) == hash(y) ==> x == y
  }

  /**
   With a collision-free hash and event ids without a colon (they are UUIDs), two events
   of one source object get the same document id exactly when they are the same event:
   a source file emitted twice under two event ids becomes two documents.
   */
  lemma DocIdFollowsEventId(
    hash: string -> string, sourceType: string, sourceId: string, sourceType': string, sourceId': string,
    eventId: string, eventId': string)
    requires Injective(hash)
    requires ':' !in eventId && ':' !in eventId'
    ensures hash(DocKey(sourceType, sourceId, eventId)) == hash(DocKey(sourceType', sourceId', eventId'))
            ==> eventId == eventId'
    ensures hash(DocKey(sourceType, sourceId, eventId)) == hash(DocKey(sourceType, sourceId, eventId'))
            <==> eventId == eventId'
  {
    if DocKey(sourceType, sourceId, eventId) == DocKey(sourceType', sourceId', eventId') {
      LastColonSplit(sourceType + ":" + sourceId, eventId, sourceType' + ":" + sourceId', eventId');
    }
    if DocKey(sourceType, sourceId, eventId) == DocKey(sourceType, sourceId, eventId') {
      LastColonSplit(sourceType + ":" + sourceId, eventId, sourceType + ":" + sourceId, eventId');
    }
  }

  // ---- Tenant-scoped collections ----

  function CollectionName(tenant: string): string {
    tenant + "_docs"
  }

  /** Two tenants never share a collection. */
  lemma CollectionNameInjective(tenant1: string, tenant2: string)
    requires CollectionName(tenant1) == CollectionName(tenant2)
    ensures tenant1 == tenant2
  {
    var n := CollectionName(tenant1);
    assert tenant1 == n[..|n| - 5];
    assert tenant2 == CollectionName(tenant2)[..|CollectionName(tenant2)| - 5];
  }

  // ---- Redis keys of the quota service ----

  function QuotaKey(tenant: string, metric: string): string {
    "quota:" + tenant + ":" + metric
  }

  function DedupKey(eventId: string): string {
    "dedup:" + eventId
  }

  /** Metric names carry no colon, so one key belongs to one tenant and one metric. */
  lemma QuotaKeyInjective(tenant1: string, metric1: string, tenant2: string, metric2: string)
    requires ':' !in metric1 && ':' !in metric2
    requires QuotaKey(tenant1, metric1) == QuotaKey(tenant2, metric2)
    ensures tenant1 == tenant2 && metric1 == metric2
  {
    LastColonSplit("quota:" + tenant1, metric1, "quota:" + tenant2, metric2);
    assert tenant1 == ("quota:" + tenant1)[6..];
    assert tenant2 == ("quota:" + tenant2)[6..];
  }

  /** One name is another one behind a prefix and a colon. */
  ghost predicate ColonSuffix(longer: string, shorter: string) {
    exists p: string :: longer == p + ":" + shorter
  }

  ghost predicate KeysTellApart(metrics: set<string>) {
    forall t1, m1, t2, m2 :: m1 in metrics && m2 in metrics && QuotaKey(t1, m1) == QuotaKey(t2, m2) ==>
        t1 == t2 && m1 == m2
  }

  lemma SharedKeyMeansSuffix(t1: string, m1: string, t2: string, m2: string)
    requires QuotaKey(t1, m1) == QuotaKey(t2, m2) && |t1| < |t2|
    ensures ColonSuffix(m1, m2)
  {
    var k := QuotaKey(t1, m1);
    assert k == "quota:" + t2 + ":" + m2;
    var p := m1[..|t2| - |t1| - 1];
    assert m1 == k[7 + |t1|..];
    assert m2 == k[7 + |t2|..];
    assert m1[|t2| - |t1| - 1] == k[6 + |t2|] == ':';
    assert m1 == p + ":" + m2;
  }

  /**
   When counters can collide. With any tenant names, a set of metric names keeps all counters apart if and only if no
   name in it is another one behind a prefix and a colon. The service itself checks neither tenants nor metrics.
   */
  lemma QuotaKeysTellApartIff(metrics: set<string>)
    ensures KeysTellApart(metrics) <==> !exists m1, m2 :: m1 in metrics && m2 in metrics && ColonSuffix(m1, m2)
  {
    if m1, m2 :| m1 in metrics && m2 in metrics && ColonSuffix(m1, m2) {
      var p :| m1 == p + ":" + m2;
      var t1, t2 := "", ":" + p;
      assert QuotaKey(t1, m1) == QuotaKey(t2, m2);
    } else {
      forall t1, m1, t2, m2 | m1 in metrics && m2 in metrics && QuotaKey(t1, m1) == QuotaKey(t2, m2)
        ensures t1 == t2 && m1 == m2
      {
        if |t1| < |t2| {
          SharedKeyMeansSuffix(t1, m1, t2, m2);
        } else if |t2| < |t1| {
          SharedKeyMeansSuffix(t2, m2, t1, m1);
        } else {
          var k1, k2 := QuotaKey(t1, m1), QuotaKey(t2, m2);
          assert t1 == k1[6..6 + |t1|] && t2 == k2[6..6 + |t2|];
          assert m1 == k1[7 + |t1|..] && m2 == k2[7 + |t2|..];
        }
      }
    }
  }

  lemma DedupKeyInjective(id1: string, id2: string)
    requires DedupKey(id1) == DedupKey(id2)
    ensures id1 == id2
  {
    assert id1 == DedupKey(id1)[6..];
    assert id2 == DedupKey(id2)[6..];
  }

  /** Dedup markers and usage counters live in one Redis keyspace and never collide. */
  lemma DedupKeyIsNoQuotaKey(eventId: string, tenant: string, metric: string)
    ensures DedupKey(eventId) != QuotaKey(tenant, metric)
  {
    assert DedupKey(eventId)[0] == 'd';
    assert QuotaKey(tenant, metric)[0] == 'q';
  }
}
