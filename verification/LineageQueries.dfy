/**
 The recursive lineage queries (services/metadata-service/src/db.py): two CTEs with UNION ALL and a
 depth bound, `query_upstream` and `query_downstream`. UNION ALL keeps every row, so the rows are walks, not
 entities; the depth bound is what makes them end on cyclic edge sets.
 */
module LineageQueries {
  import opened Options
  import opened Lineage
  import opened Replay

  /** Which way the CTE follows an edge. */
  datatype Direction = Upward | Downward

  function From(dir: Direction, e: Edge): EntityId {
    if dir.Upward? then e.down else e.up
  }

  function To(dir: Direction, e: Edge): EntityId {
    if dir.Upward? then e.up else e.down
  }

  function Opposite(dir: Direction): Direction {
    if dir.Upward? then Downward else Upward
  }

  /** A row of the working table. */
  datatype Row = Row(id: EntityId, relationship: Option<string>, depth: nat)

  const UPSTREAM_DEPTH := 5
  const DOWNSTREAM_DEPTH := 4

  // ---- The CTE ----

  /** JOIN lineage: one new row for every table edge that leaves the row's entity. */
  function JoinOne(dir: Direction, table: seq<Edge>, r: Row): seq<Row> {
    if |table| == 0 then []
    else
      var e := table[|table| - 1];
      JoinOne(dir, table[..|table| - 1], r)
      + if From(dir, e) == r.id then [Row(To(dir, e), Some(e.relationship), r.depth + 1)] else []
  }

  function Join(dir: Direction, table: seq<Edge>, rows: seq<Row>): seq<Row> {
    if |rows| == 0 then []
    else Join(dir, table, rows[..|rows| - 1]) + JoinOne(dir, table, rows[|rows| - 1])
  }

  /** WITH RECURSIVE: join the working table again until it is empty or the depth bound is reached. */
  function Recurse(dir: Direction, table: seq<Edge>, rows: seq<Row>, depth: nat, limit: nat): seq<Row>
    requires depth <= limit
    decreases limit - depth
  {
    if |rows| == 0 || depth == limit then rows
    else rows + Recurse(dir, table, Join(dir, table, rows), depth + 1, limit)
  }

  function StartRows(starts: seq<EntityId>): (rows: seq<Row>)
    ensures |rows| == |starts|
  {
    seq(|starts|, i requires 0 <= i < |starts| => Row(starts[i], None, 0))
  }

  /** All rows of query_upstream; ORDER BY depth only rearranges them. */
  function QueryUpstream(table: seq<Edge>, starts: seq<EntityId>): seq<Row> {
    Recurse(Upward, table, StartRows(starts), 0, UPSTREAM_DEPTH)
  }

  /** All rows of query_downstream before grouping, the start rows filtered out by WHERE depth > 0. */
  function QueryDownstream(table: seq<Edge>, starts: seq<EntityId>): seq<Row> {
    Recurse(Downward, table, StartRows(starts), 0, DOWNSTREAM_DEPTH)[|starts|..]
  }

  /** Both queries find their start entities in the entity table. */
  ghost predicate UpstreamStarts(s: Store, chunkId: string, starts: seq<EntityId>) {
    NoDuplicates(starts) && forall id :: id in starts <==> id in s.entities && id.key == chunkId
  }

  ghost predicate DownstreamStarts(s: Store, tenant: string, path: string, starts: seq<EntityId>) {
    && NoDuplicates(starts)
    && forall id :: id in starts <==>
         && id in s.entities && id.etype == "RawDocument" && id.tenant == tenant
         && "source_path" in s.entities[id].attributes && s.entities[id].attributes["source_path"] == path
  }

  // ---- Walks ----

  /** A walk leaves `start` along the edges, in the given direction. */
  datatype Walk = Walk(start: EntityId, edges: seq<Edge>)

  function End(dir: Direction, w: Walk): EntityId {
    if |w.edges| == 0 then w.start else To(dir, w.edges[|w.edges| - 1])
  }

  ghost predicate IsWalk(dir: Direction, table: seq<Edge>, w: Walk) {
    && (forall i :: 0 <= i < |w.edges| ==> w.edges[i] in table)
    && (|w.edges| > 0 ==> From(dir, w.edges[0]) == w.start)
    && (forall i :: 0 < i < |w.edges| ==> From(dir, w.edges[i]) == To(dir, w.edges[i - 1]))
  }

  function Then(w: Walk, e: Edge): Walk {
    Walk(w.start, w.edges + [e])
  }

  function RowOfWalk(dir: Direction, w: Walk): Row {
    Row(End(dir, w), if |w.edges| == 0 then None else Some(w.edges[|w.edges| - 1].relationship), |w.edges|)
  }

  function RowsOfWalks(dir: Direction, ws: seq<Walk>): (rows: seq<Row>)
    ensures |rows| == |ws|
    ensures forall i :: 0 <= i < |ws| ==> rows[i] == RowOfWalk(dir, ws[i])
  {
    seq(|ws|, i requires 0 <= i < |ws| => RowOfWalk(dir, ws[i]))
  }

  ghost predicate NoDuplicates<T(!new)>(s: seq<T>) {
    forall i, j :: 0 <= i < j < |s| ==> s[i] != s[j]
  }

  function ExtendOne(dir: Direction, table: seq<Edge>, w: Walk): seq<Walk> {
    if |table| == 0 then []
    else
      var e := table[|table| - 1];
      ExtendOne(dir, table[..|table| - 1], w) + if From(dir, e) == End(dir, w) then [Then(w, e)] else []
  }

  function Extend(dir: Direction, table: seq<Edge>, ws: seq<Walk>): seq<Walk> {
    if |ws| == 0 then []
    else Extend(dir, table, ws[..|ws| - 1]) + ExtendOne(dir, table, ws[|ws| - 1])
  }

  function StartWalks(starts: seq<EntityId>): (ws: seq<Walk>)
    ensures |ws| == |starts|
    ensures forall i :: 0 <= i < |starts| ==> ws[i] == Walk(starts[i], [])
  {
    seq(|starts|, i requires 0 <= i < |starts| => Walk(starts[i], []))
  }

  /** The walks of length d from the starts, listed as the CTE meets them. */
  function Level(dir: Direction, table: seq<Edge>, starts: seq<EntityId>, d: nat): seq<Walk> {
    if d == 0 then StartWalks(starts) else Extend(dir, table, Level(dir, table, starts, d - 1))
  }

  /** The given walks and everything the CTE finds from them in n more rounds. */
  function Closure(dir: Direction, table: seq<Edge>, ws: seq<Walk>, n: nat): seq<Walk>
    decreases n
  {
    if n == 0 then ws else ws + Closure(dir, table, Extend(dir, table, ws), n - 1)
  }

  // ---- The rows are the walks ----

  lemma {:induction false} JoinOneIsExtendOne(dir: Direction, table: seq<Edge>, w: Walk)
    ensures JoinOne(dir, table, RowOfWalk(dir, w)) == RowsOfWalks(dir, ExtendOne(dir, table, w))
  {
    if |table| == 0 {
    } else {
      JoinOneIsExtendOne(dir, table[..|table| - 1], w);
    }
  }

  lemma {:induction false} JoinIsExtend(dir: Direction, table: seq<Edge>, ws: seq<Walk>)
    ensures Join(dir, table, RowsOfWalks(dir, ws)) == RowsOfWalks(dir, Extend(dir, table, ws))
  {
    if |ws| == 0 {
    } else {
      var n := |ws| - 1;
      JoinIsExtend(dir, table, ws[..n]);
      JoinOneIsExtendOne(dir, table, ws[n]);
      assert RowsOfWalks(dir, ws)[..n] == RowsOfWalks(dir, ws[..n]);
    }
  }

  lemma RowsConcat(dir: Direction, a: seq<Walk>, b: seq<Walk>)
    ensures RowsOfWalks(dir, a + b) == RowsOfWalks(dir, a) + RowsOfWalks(dir, b)
  {}

  lemma {:induction false} NoWalksNoMore(dir: Direction, table: seq<Edge>, n: nat)
    ensures Closure(dir, table, [], n) == []
  {
    if n == 0 {
    } else {
      NoWalksNoMore(dir, table, n - 1);
    }
  }

  lemma {:induction false} RecurseIsClosure(dir: Direction, table: seq<Edge>, ws: seq<Walk>, d: nat, limit: nat)
    requires d <= limit
    ensures Recurse(dir, table, RowsOfWalks(dir, ws), d, limit) == RowsOfWalks(dir, Closure(dir, table, ws, limit - d))
    decreases limit - d
  {
    if |ws| == 0 {
      NoWalksNoMore(dir, table, limit - d);
    } else if d < limit {
      JoinIsExtend(dir, table, ws);
      RecurseIsClosure(dir, table, Extend(dir, table, ws), d + 1, limit);
      RowsConcat(dir, ws, Closure(dir, table, Extend(dir, table, ws), limit - d - 1));
    }
  }

  lemma {:induction false} ExtendOneLists(dir: Direction, table: seq<Edge>, w: Walk, u: Walk)
    ensures u in ExtendOne(dir, table, w) <==>
              |u.edges| > 0 && u == Then(w, u.edges[|u.edges| - 1])
              && u.edges[|u.edges| - 1] in table && From(dir, u.edges[|u.edges| - 1]) == End(dir, w)
  {
    if |table| == 0 {
    } else {
      var n := |table| - 1;
      ExtendOneLists(dir, table[..n], w, u);
      assert table == table[..n] + [table[n]];
      var last := Then(w, table[n]);
      assert last.edges[|last.edges| - 1] == table[n];
    }
  }

  lemma {:induction false} ExtendOneDistinct(dir: Direction, table: seq<Edge>, w: Walk)
    requires NoDuplicates(table)
    ensures NoDuplicates(ExtendOne(dir, table, w))
  {
    if |table| == 0 {
    } else {
      var n := |table| - 1;
      ExtendOneDistinct(dir, table[..n], w);
      ExtendOneLists(dir, table[..n], w, Then(w, table[n]));
      var last := Then(w, table[n]);
      assert last.edges[|last.edges| - 1] == table[n];
    }
  }

  /** The walk without its last edge. */
  function Init(u: Walk): Walk
    requires |u.edges| > 0
  {
    Walk(u.start, u.edges[..|u.edges| - 1])
  }

  lemma {:induction false} ExtendLists(dir: Direction, table: seq<Edge>, ws: seq<Walk>, u: Walk)
    ensures u in Extend(dir, table, ws) <==>
              |u.edges| > 0 && Init(u) in ws
              && u.edges[|u.edges| - 1] in table && From(dir, u.edges[|u.edges| - 1]) == End(dir, Init(u))
  {
    if |ws| == 0 {
    } else {
      var n := |ws| - 1;
      ExtendLists(dir, table, ws[..n], u);
      ExtendOneLists(dir, table, ws[n], u);
      assert ws == ws[..n] + [ws[n]];
      if |u.edges| > 0 {
        assert u.edges == Init(u).edges + [u.edges[|u.edges| - 1]];
        assert u == Then(ws[n], u.edges[|u.edges| - 1]) <==> Init(u) == ws[n];
      }
    }
  }

  lemma DistinctConcat<T(!new)>(a: seq<T>, b: seq<T>)
    requires NoDuplicates(a) && NoDuplicates(b) && forall x :: x in a ==> x !in b
    ensures NoDuplicates(a + b)
  {
    forall i, j | 0 <= i < j < |a + b|
      ensures (a + b)[i] != (a + b)[j]
    {
      if i < |a| <= j {
        assert a[i] in a && b[j - |a|] in b;
      }
    }
  }

  lemma {:induction false} ExtendDistinct(dir: Direction, table: seq<Edge>, ws: seq<Walk>)
    requires NoDuplicates(table) && NoDuplicates(ws)
    ensures NoDuplicates(Extend(dir, table, ws))
  {
    if |ws| == 0 {
    } else {
      var n := |ws| - 1;
      ExtendDistinct(dir, table, ws[..n]);
      ExtendOneDistinct(dir, table, ws[n]);
      forall u | u in Extend(dir, table, ws[..n])
        ensures u !in ExtendOne(dir, table, ws[n])
      {
        ExtendLists(dir, table, ws[..n], u);
        ExtendOneLists(dir, table, ws[n], u);
        assert Init(Then(ws[n], u.edges[|u.edges| - 1])) == ws[n];
      }
      DistinctConcat(Extend(dir, table, ws[..n]), ExtendOne(dir, table, ws[n]));
    }
  }

  lemma WalkByLastEdge(dir: Direction, table: seq<Edge>, w: Walk)
    requires |w.edges| > 0
    ensures IsWalk(dir, table, w) <==>
              IsWalk(dir, table, Init(w)) && w.edges[|w.edges| - 1] in table
                  && From(dir, w.edges[|w.edges| - 1]) == End(dir, Init(w))
  {
    var n := |w.edges| - 1;
    var e := Init(w).edges;
    assert forall i :: 0 <= i < n ==> e[i] == w.edges[i];
    if IsWalk(dir, table, Init(w)) && w.edges[n] in table && From(dir, w.edges[n]) == End(dir, Init(w)) {
      forall i | 0 <= i < |w.edges|
        ensures w.edges[i] in table
      {
        if i < n {
          assert e[i] in table;
        }
      }
    }
  }

  ghost predicate IsWalkFrom(dir: Direction, table: seq<Edge>, starts: seq<EntityId>, w: Walk) {
    IsWalk(dir, table, w) && w.start in starts
  }

  /** The list holds every walk of length lo..hi from a start, once, and nothing else. */
  ghost predicate Lists(dir: Direction, table: seq<Edge>, starts: seq<EntityId>, ws: seq<Walk>, lo: nat, hi: nat) {
    && NoDuplicates(ws)
    && forall w :: w in ws <==> IsWalkFrom(dir, table, starts, w) && lo <= |w.edges| <= hi
  }

  lemma StartsListed(dir: Direction, table: seq<Edge>, starts: seq<EntityId>)
    requires NoDuplicates(starts)
    ensures Lists(dir, table, starts, StartWalks(starts), 0, 0)
  {
    forall w
      ensures w in StartWalks(starts) <==> IsWalkFrom(dir, table, starts, w) && |w.edges| == 0
    {
      if w.start in starts && |w.edges| == 0 {
        var i :| 0 <= i < |starts| && starts[i] == w.start;
        assert StartWalks(starts)[i] == w;
      }
    }
  }

  lemma ExtendListed(dir: Direction, table: seq<Edge>, starts: seq<EntityId>, ws: seq<Walk>, d: nat)
    requires NoDuplicates(table) && Lists(dir, table, starts, ws, d, d)
    ensures Lists(dir, table, starts, Extend(dir, table, ws), d + 1, d + 1)
  {
    ExtendDistinct(dir, table, ws);
    forall w
      ensures w in Extend(dir, table, ws) <==> IsWalkFrom(dir, table, starts, w) && |w.edges| == d + 1
    {
      ExtendLists(dir, table, ws, w);
      if |w.edges| > 0 {
        WalkByLastEdge(dir, table, w);
      }
    }
  }

  lemma {:induction false} ClosureListed(
    dir: Direction, table: seq<Edge>, starts: seq<EntityId>, ws: seq<Walk>, d: nat, n: nat)
    requires NoDuplicates(table) && Lists(dir, table, starts, ws, d, d)
    ensures Lists(dir, table, starts, Closure(dir, table, ws, n), d, d + n)
    decreases n
  {
    if n == 0 {
    } else {
      ExtendListed(dir, table, starts, ws, d);
      ClosureListed(dir, table, starts, Extend(dir, table, ws), d + 1, n - 1);
      ConcatListed(dir, table, starts, ws, Closure(dir, table, Extend(dir, table, ws), n - 1), d, d + n);
    }
  }

  lemma ConcatListed(
    dir: Direction, table: seq<Edge>, starts: seq<EntityId>, a: seq<Walk>, b: seq<Walk>, d: nat, hi: nat)
    requires d < hi && Lists(dir, table, starts, a, d, d) && Lists(dir, table, starts, b, d + 1, hi)
    ensures Lists(dir, table, starts, a + b, d, hi)
  {
    DistinctConcat(a, b);
    forall w
      ensures w in a + b <==> IsWalkFrom(dir, table, starts, w) && d <= |w.edges| <= hi
    {
      assert w in a + b <==> w in a || w in b;
    }
  }

  /** Level d lists every walk of length d from a start, and lists it once. */
  lemma {:induction false} LevelListed(dir: Direction, table: seq<Edge>, starts: seq<EntityId>, d: nat)
    requires NoDuplicates(table) && NoDuplicates(starts)
    ensures Lists(dir, table, starts, Level(dir, table, starts, d), d, d)
  {
    if d == 0 {
      StartsListed(dir, table, starts);
    } else {
      LevelListed(dir, table, starts, d - 1);
      ExtendListed(dir, table, starts, Level(dir, table, starts, d - 1), d - 1);
    }
  }

  lemma StartRowsAreStartWalks(dir: Direction, starts: seq<EntityId>)
    ensures StartRows(starts) == RowsOfWalks(dir, StartWalks(starts))
  {}

  lemma RowsAreWalks(dir: Direction, table: seq<Edge>, starts: seq<EntityId>, limit: nat)
    requires NoDuplicates(table) && NoDuplicates(starts)
    ensures Recurse(dir, table, StartRows(starts), 0, limit) ==
        RowsOfWalks(dir, Closure(dir, table, StartWalks(starts), limit))
    ensures Lists(dir, table, starts, Closure(dir, table, StartWalks(starts), limit), 0, limit)
  {
    StartRowsAreStartWalks(dir, starts);
    RecurseIsClosure(dir, table, StartWalks(starts), 0, limit);
    StartsListed(dir, table, starts);
    ClosureListed(dir, table, starts, StartWalks(starts), 0, limit);
  }

  /**
   `query_upstream` returns one row for every upstream walk of length 0 to 5 from a matching entity, and no other
   row, on any edge table, cyclic or not.
   */
  lemma UpstreamRowsAreWalks(table: seq<Edge>, starts: seq<EntityId>) returns (walks: seq<Walk>)
    requires NoDuplicates(table) && NoDuplicates(starts)
    ensures QueryUpstream(table, starts) == RowsOfWalks(Upward, walks)
    ensures Lists(Upward, table, starts, walks, 0, 5)
  {
    walks := Closure(Upward, table, StartWalks(starts), UPSTREAM_DEPTH);
    RowsAreWalks(Upward, table, starts, UPSTREAM_DEPTH);
  }

  /** The walks below the start documents, in the order of the rows. */
  function DownstreamWalks(table: seq<Edge>, starts: seq<EntityId>): seq<Walk> {
    Closure(Downward, table, Extend(Downward, table, StartWalks(starts)), DOWNSTREAM_DEPTH - 1)
  }

  lemma DownstreamListed(table: seq<Edge>, starts: seq<EntityId>)
    requires NoDuplicates(table) && NoDuplicates(starts)
    ensures Lists(Downward, table, starts, DownstreamWalks(table, starts), 1, DOWNSTREAM_DEPTH)
  {
    StartsListed(Downward, table, starts);
    ExtendListed(Downward, table, starts, StartWalks(starts), 0);
    ClosureListed(Downward, table, starts, Extend(Downward, table, StartWalks(starts)), 1, DOWNSTREAM_DEPTH - 1);
  }

  /**
   `query_downstream` counts one row for every downstream walk of length 1 to 4 from a matching document, and no
   other.
   */
  lemma DownstreamRowsAreWalks(table: seq<Edge>, starts: seq<EntityId>) returns (walks: seq<Walk>)
    requires NoDuplicates(table) && NoDuplicates(starts)
    ensures QueryDownstream(table, starts) == RowsOfWalks(Downward, walks)
    ensures Lists(Downward, table, starts, walks, 1, 4)
    ensures walks == DownstreamWalks(table, starts)
  {
    walks := DownstreamWalks(table, starts);
    RowsAreWalks(Downward, table, starts, DOWNSTREAM_DEPTH);
    DownstreamListed(table, starts);
    RowsConcat(Downward, StartWalks(starts), walks);
  }

  // ---- Upstream and downstream agree ----

  /** The walks of a list that end at x. */
  function EndingAt(dir: Direction, ws: seq<Walk>, x: EntityId): seq<Walk> {
    if |ws| == 0 then []
    else EndingAt(dir, ws[..|ws| - 1], x) + if End(dir, ws[|ws| - 1]) == x then [ws[|ws| - 1]] else []
  }

  lemma {:induction false} EndingAtLists(dir: Direction, ws: seq<Walk>, x: EntityId)
    ensures forall w :: w in EndingAt(dir, ws, x) <==> w in ws && End(dir, w) == x
    ensures NoDuplicates(ws) ==> NoDuplicates(EndingAt(dir, ws, x))
  {
    if |ws| == 0 {
    } else {
      EndingAtLists(dir, ws[..|ws| - 1], x);
      assert ws == ws[..|ws| - 1] + [ws[|ws| - 1]];
    }
  }

  function Reverse(es: seq<Edge>): (r: seq<Edge>)
    ensures |r| == |es|
    ensures forall i :: 0 <= i < |es| ==> r[i] == es[|es| - 1 - i]
  {
    if |es| == 0 then [] else [es[|es| - 1]] + Reverse(es[..|es| - 1])
  }

  /** The same edges walked the other way, from the end back to the start. */
  function Backward(dir: Direction, w: Walk): Walk {
    Walk(End(dir, w), Reverse(w.edges))
  }

  lemma {:induction false} ReverseTwice(es: seq<Edge>)
    ensures Reverse(Reverse(es)) == es
  {
    var r := Reverse(es);
    assert forall i :: 0 <= i < |es| ==> Reverse(r)[i] == r[|es| - 1 - i] && r[|es| - 1 - i] == es[i];
  }

  lemma BackwardTwice(dir: Direction, w: Walk)
    requires |w.edges| > 0 ==> From(dir, w.edges[0]) == w.start
    ensures End(Opposite(dir), Backward(dir, w)) == w.start
    ensures Backward(Opposite(dir), Backward(dir, w)) == w
  {
    ReverseTwice(w.edges);
  }

  lemma BackwardIsWalk(dir: Direction, table: seq<Edge>, w: Walk)
    requires IsWalk(dir, table, w)
    ensures IsWalk(Opposite(dir), table, Backward(dir, w))
    ensures |Backward(dir, w).edges| == |w.edges|
  {
    var b, n := Backward(dir, w).edges, |w.edges|;
    assert forall i :: 0 <= i < n ==> b[i] == w.edges[n - 1 - i] && w.edges[n - 1 - i] in table;
    forall i | 0 < i < n
      ensures From(Opposite(dir), b[i]) == To(Opposite(dir), b[i - 1])
    {
      assert b[i] == w.edges[n - 1 - i] && b[i - 1] == w.edges[n - i];
      assert From(dir, w.edges[n - i]) == To(dir, w.edges[n - i - 1]);
    }
  }

  function Elements<T>(s: seq<T>): set<T> {
    set x | x in s
  }

  lemma {:induction false} DistinctCount<T(!new)>(s: seq<T>)
    requires NoDuplicates(s)
    ensures |Elements(s)| == |s|
  {
    if |s| == 0 {
    } else {
      var n := |s| - 1;
      DistinctCount(s[..n]);
      assert Elements(s) == Elements(s[..n]) + {s[n]};
    }
  }

  /** Reversal maps one list of walks into the other, so it is no longer. */
  lemma {:induction false} ReversalFits(dir: Direction, table: seq<Edge>, ws: seq<Walk>, us: set<Walk>)
    requires NoDuplicates(ws)
    requires forall w :: w in ws ==> IsWalk(dir, table, w) && Backward(dir, w) in us
    ensures |ws| <= |us|
  {
    if |ws| == 0 {
    } else {
      var n := |ws| - 1;
      var b := Backward(dir, ws[n]);
      assert ws[n] in ws;
      forall w | w in ws[..n]
        ensures IsWalk(dir, table, w) && Backward(dir, w) in us - {b}
      {
        var i :| 0 <= i < n && ws[i] == w;
        assert w in ws;
        BackwardTwice(dir, w);
        BackwardTwice(dir, ws[n]);
      }
      ReversalFits(dir, table, ws[..n], us - {b});
    }
  }

  lemma WalkCountAtMost(dir: Direction, table: seq<Edge>, x: EntityId, y: EntityId, d: nat)
    requires NoDuplicates(table)
    ensures |EndingAt(dir, Level(dir, table, [y], d), x)|
            <= |EndingAt(Opposite(dir), Level(Opposite(dir), table, [x], d), y)|
  {
    var op := Opposite(dir);
    var ws, us := EndingAt(dir, Level(dir, table, [y], d), x), EndingAt(op, Level(op, table, [x], d), y);
    LevelListed(dir, table, [y], d);
    LevelListed(op, table, [x], d);
    EndingAtLists(dir, Level(dir, table, [y], d), x);
    EndingAtLists(op, Level(op, table, [x], d), y);
    forall w | w in ws
      ensures IsWalk(dir, table, w) && Backward(dir, w) in Elements(us)
    {
      assert IsWalkFrom(dir, table, [y], w);
      BackwardIsWalk(dir, table, w);
      BackwardTwice(dir, w);
      assert IsWalkFrom(op, table, [x], Backward(dir, w));
    }
    ReversalFits(dir, table, ws, Elements(us));
    DistinctCount(us);
  }

  /**
   The two queries agree: at every depth, y has as many upstream walks to x as x has downstream walks to y. In
   particular x is a row of y's upstream chain at depth 1..4 exactly when y is counted downstream of x there.
   */
  lemma UpstreamDownstreamAgree(table: seq<Edge>, x: EntityId, y: EntityId, d: nat)
    requires NoDuplicates(table)
    ensures |EndingAt(Upward, Level(Upward, table, [y], d), x)| ==
        |EndingAt(Downward, Level(Downward, table, [x], d), y)|
  {
    WalkCountAtMost(Upward, table, x, y, d);
    WalkCountAtMost(Downward, table, y, x, d);
  }

  // ---- When the counts are counts of entities ----

  ghost predicate AtMostOneParent(table: seq<Edge>) {
    forall e, f :: e in table && f in table && e.down == f.down ==> e == f
  }

  /** No two of the walks end at the same entity: the rows count entities. */
  ghost predicate DistinctEnds(ws: seq<Walk>) {
    forall v, w :: v in ws && w in ws && End(Downward, v) == End(Downward, w) ==> v == w
  }

  /** One walk after the other. */
  function Joined(v: Walk, w: Walk): Walk {
    Walk(v.start, v.edges + w.edges)
  }

  /**
   An entity of the type lies within four steps of a start document by a walk that passes another start document, or the
   same one again: it is reached from both.
   */
  ghost predicate CountedTwice(table: seq<Edge>, starts: seq<EntityId>, etype: string) {
    exists v, w :: PassesStart(table, starts, v, w) && End(Downward, w).etype == etype
  }

  ghost predicate PassesStart(table: seq<Edge>, starts: seq<EntityId>, v: Walk, w: Walk) {
    && IsWalk(Downward, table, v) && IsWalk(Downward, table, w)
    && v.start in starts && w.start in starts && End(Downward, v) == w.start
    && 1 <= |v.edges| && 1 <= |w.edges| && |v.edges| + |w.edges| <= 4
  }

  /** With single parents a shared end fixes the edges backwards, for as long as both walks last. */
  lemma {:induction false} SharedSuffix(table: seq<Edge>, v: Walk, w: Walk, k: nat)
    requires AtMostOneParent(table)
    requires IsWalk(Downward, table, v) && IsWalk(Downward, table, w)
    requires 0 < |v.edges| && 0 < |w.edges| && End(Downward, v) == End(Downward, w)
    requires k < |v.edges| && k < |w.edges|
    ensures v.edges[|v.edges| - 1 - k] == w.edges[|w.edges| - 1 - k]
  {
    if k == 0 {
    } else {
      SharedSuffix(table, v, w, k - 1);
      var i, j := |v.edges| - k, |w.edges| - k;
      assert From(Downward, v.edges[i]) == To(Downward, v.edges[i - 1]);
      assert From(Downward, w.edges[j]) == To(Downward, w.edges[j - 1]);
    }
    assert v.edges[|v.edges| - 1 - k] in table && w.edges[|w.edges| - 1 - k] in table;
  }

  lemma Prefix(table: seq<Edge>, w: Walk, k: nat)
    requires IsWalk(Downward, table, w) && k <= |w.edges|
    ensures IsWalk(Downward, table, Walk(w.start, w.edges[..k]))
  {}

  lemma SharedEndPassesStart(table: seq<Edge>, starts: seq<EntityId>, v: Walk, w: Walk)
    requires AtMostOneParent(table)
    requires IsWalk(Downward, table, v) && IsWalk(Downward, table, w) && v.start in starts && w.start in starts
    requires 1 <= |v.edges| <= |w.edges| <= 4 && End(Downward, v) == End(Downward, w) && v != w
    ensures CountedTwice(table, starts, End(Downward, v).etype)
  {
    var k := |w.edges| - |v.edges|;
    forall i | 0 <= i < |v.edges|
      ensures v.edges[i] == w.edges[k + i]
    {
      SharedSuffix(table, v, w, |v.edges| - 1 - i);
    }
    assert v.edges == w.edges[k..];
    assert k > 0;
    Prefix(table, w, k);
    var p := Walk(w.start, w.edges[..k]);
    assert From(Downward, w.edges[k]) == To(Downward, w.edges[k - 1]);
    assert PassesStart(table, starts, p, v);
  }

  lemma JoinedIsWalk(table: seq<Edge>, v: Walk, w: Walk)
    requires IsWalk(Downward, table, v) && IsWalk(Downward, table, w) && End(Downward, v) == w.start && |w.edges| > 0
    ensures IsWalk(Downward, table, Joined(v, w)) && End(Downward, Joined(v, w)) == End(Downward, w)
  {
    var u, n := Joined(v, w), |v.edges|;
    forall i | 0 < i < |u.edges|
      ensures From(Downward, u.edges[i]) == To(Downward, u.edges[i - 1])
    {
      if i < n {
        assert u.edges[i] == v.edges[i] && u.edges[i - 1] == v.edges[i - 1];
      } else if i > n {
        assert u.edges[i] == w.edges[i - n] && u.edges[i - 1] == w.edges[i - n - 1];
      }
    }
  }

  /** The walks that end at an entity of the type. */
  function OfType(ws: seq<Walk>, etype: string): seq<Walk> {
    if |ws| == 0 then []
    else OfType(ws[..|ws| - 1], etype) + if End(Downward, ws[|ws| - 1]).etype == etype then [ws[|ws| - 1]] else []
  }

  lemma {:induction false} OfTypeLists(ws: seq<Walk>, etype: string)
    ensures forall w :: w in OfType(ws, etype) <==> w in ws && End(Downward, w).etype == etype
    ensures NoDuplicates(ws) ==> NoDuplicates(OfType(ws, etype))
  {
    if |ws| == 0 {
    } else {
      OfTypeLists(ws[..|ws| - 1], etype);
      assert ws == ws[..|ws| - 1] + [ws[|ws| - 1]];
    }
  }

  /** GROUP BY entity_type: the keys ARRAY_AGG collects for a type; COUNT(*) is their number. */
  function KeysOfType(rows: seq<Row>, etype: string): seq<string> {
    if |rows| == 0 then []
    else
      var last := rows[|rows| - 1];
      KeysOfType(rows[..|rows| - 1], etype) + if last.id.etype == etype then [last.id.key] else []
  }

  function EndKeys(ws: seq<Walk>): (keys: seq<string>)
    ensures |keys| == |ws|
    ensures forall i :: 0 <= i < |ws| ==> keys[i] == End(Downward, ws[i]).key
  {
    seq(|ws|, i requires 0 <= i < |ws| => End(Downward, ws[i]).key)
  }

  lemma {:induction false} KeysOfWalks(ws: seq<Walk>, etype: string)
    ensures KeysOfType(RowsOfWalks(Downward, ws), etype) == EndKeys(OfType(ws, etype))
  {
    if |ws| == 0 {
    } else {
      var n := |ws| - 1;
      KeysOfWalks(ws[..n], etype);
      assert RowsOfWalks(Downward, ws)[..n] == RowsOfWalks(Downward, ws[..n]);
    }
  }

  /** The entities a list of downstream walks ends in. */
  function Descendants(ws: seq<Walk>): set<EntityId> {
    set w | w in ws :: End(Downward, w)
  }

  /** The walks are as many as the distinct entities they end in exactly when no two end in the same one. */
  lemma {:induction false} DistinctEndsCount(ws: seq<Walk>)
    requires NoDuplicates(ws)
    ensures |Descendants(ws)| <= |ws|
    ensures |ws| == |Descendants(ws)| <==> DistinctEnds(ws)
  {
    if |ws| == 0 {
    } else {
      var n := |ws| - 1;
      assert ws == ws[..n] + [ws[n]];
      DistinctEndsCount(ws[..n]);
      assert Descendants(ws) == Descendants(ws[..n]) + {End(Downward, ws[n])};
      DistinctEndsStep(ws[..n], ws[n]);
    }
  }

  lemma DistinctEndsStep(front: seq<Walk>, last: Walk)
    requires NoDuplicates(front + [last])
    ensures DistinctEnds(front + [last]) <==> DistinctEnds(front) && End(Downward, last) !in Descendants(front)
  {
    var ws := front + [last];
    assert ws[|front|] == last && forall w :: w in ws <==> w in front || w == last;
    assert forall i :: 0 <= i < |front| ==> ws[i] == front[i] && front[i] != last;
  }

  lemma DistinctEndsIff(table: seq<Edge>, starts: seq<EntityId>, etype: string)
    requires NoDuplicates(table) && NoDuplicates(starts) && AtMostOneParent(table)
    ensures DistinctEnds(OfType(DownstreamWalks(table, starts), etype)) <==> !CountedTwice(table, starts, etype)
  {
    var ws := DownstreamWalks(table, starts);
    DownstreamListed(table, starts);
    OfTypeLists(ws, etype);
    if v, w :| PassesStart(table, starts, v, w) && End(Downward, w).etype == etype {
      JoinedIsWalk(table, v, w);
      var long := Joined(v, w);
      assert IsWalkFrom(Downward, table, starts, long) && IsWalkFrom(Downward, table, starts, w);
      assert long in OfType(ws, etype) && w in OfType(ws, etype) && |long.edges| != |w.edges|;
    } else {
      forall v, w | v in OfType(ws, etype) && w in OfType(ws, etype) && End(Downward, v) == End(Downward, w)
        ensures v == w
      {
        assert IsWalkFrom(Downward, table, starts, v) && IsWalkFrom(Downward, table, starts, w);
        if v != w && |v.edges| <= |w.edges| {
          SharedEndPassesStart(table, starts, v, w);
        } else if v != w {
          SharedEndPassesStart(table, starts, w, v);
        }
      }
    }
  }

  /**
   What `query_downstream` answers for an entity type: one key for each walk of length 1 to 4 that ends at an entity of
   the type. When every entity has at most one incoming edge, its count is the number of distinct descendants of the
   type if and only if no entity of the type lies within four steps of a start document beyond another one.
   */
  lemma CountsEntitiesExactlyWhen(table: seq<Edge>, starts: seq<EntityId>, etype: string)
    requires NoDuplicates(table) && NoDuplicates(starts) && AtMostOneParent(table)
    ensures var ws := OfType(DownstreamWalks(table, starts), etype);
            && KeysOfType(QueryDownstream(table, starts), etype) == EndKeys(ws)
            && (|EndKeys(ws)| == |Descendants(ws)| <==> !CountedTwice(table, starts, etype))
  {
    var walks := DownstreamRowsAreWalks(table, starts);
    KeysOfWalks(walks, etype);
    OfTypeLists(walks, etype);
    DistinctEndsCount(OfType(walks, etype));
    DistinctEndsIff(table, starts, etype);
  }

  /** A single start document that lies on no cycle of up to three edges has exact counts. */
  lemma SingleStartCounts(table: seq<Edge>, start: EntityId, etype: string)
    requires NoDuplicates(table) && AtMostOneParent(table)
    requires forall w :: IsWalk(Downward, table, w) && w.start == start && 1 <= |w.edges| <= 3 ==>
        End(Downward, w) != start
    ensures !CountedTwice(table, [start], etype)
  {}

  /** Being acyclic is not enough: two start documents, one below the other, count what lies below both twice. */
  lemma NestedStartsCountTwice(a: EntityId, b: EntityId, c: EntityId)
    requires a != b && b != c && a != c
    ensures var table := [Edge(a, b, "contains"), Edge(b, c, "contains")];
            AtMostOneParent(table) && NoDuplicates(table) && CountedTwice(table, [a, b], c.etype)
  {
    var e, f := Edge(a, b, "contains"), Edge(b, c, "contains");
    assert PassesStart([e, f], [a, b], Walk(a, [e]), Walk(b, [f]));
  }

  // ---- The queries on a store built from a log ----

  /** Edges join existing entities of one tenant. */
  ghost predicate EdgesSane(s: Store) {
    forall e :: e in s.lineage ==> e.up in s.entities && e.down in s.entities && e.up.tenant == e.down.tenant
  }

  lemma ApplyKeepsEdgesSane(s: Store, e: Event)
    requires EdgesSane(s)
    ensures EdgesSane(Apply(s, e))
  {
    var t := Apply(s, e);
    forall edge | edge in t.lineage
      ensures edge.up in t.entities && edge.down in t.entities && edge.up.tenant == edge.down.tenant
    {
      ApplyEffect(s, e, edge, edge.up);
      ApplyEffect(s, e, edge, edge.down);
    }
  }

  lemma {:induction false} FoldKeepsEdgesSane(s: Store, log: seq<Event>)
    requires EdgesSane(s)
    ensures EdgesSane(Fold(s, log))
  {
    if |log| == 0 {
    } else {
      FoldKeepsEdgesSane(s, log[..|log| - 1]);
      ApplyKeepsEdgesSane(Fold(s, log[..|log| - 1]), log[|log| - 1]);
    }
  }

  lemma {:induction false} WalkStaysInTenant(s: Store, dir: Direction, table: seq<Edge>, w: Walk)
    requires EdgesSane(s) && forall e :: e in table ==> e in s.lineage
    requires IsWalk(dir, table, w) && w.start in s.entities
    ensures End(dir, w) in s.entities && End(dir, w).tenant == w.start.tenant
    decreases |w.edges|
  {
    if |w.edges| == 0 {
    } else {
      WalkByLastEdge(dir, table, w);
      WalkStaysInTenant(s, dir, table, Init(w));
      assert w.edges[|w.edges| - 1] in table;
    }
  }

  /**
   `query_upstream` does not filter by tenant: it starts at every entity with the key. On a store built from any log,
   still, each row is an existing entity of the tenant of the very start its walk begins at.
   */
  lemma UpstreamRowsStayInTenant(log: seq<Event>, chunkId: string, table: seq<Edge>, starts: seq<EntityId>, i: nat)
    returns (walk: Walk)
    requires NoDuplicates(table) && forall e :: e in table <==> e in Fold(EMPTY, log).lineage
    requires UpstreamStarts(Fold(EMPTY, log), chunkId, starts)
    requires i < |QueryUpstream(table, starts)|
    ensures QueryUpstream(table, starts)[i] == RowOfWalk(Upward, walk) && IsWalk(Upward, table, walk)
    ensures walk.start in starts && walk.start.key == chunkId
    ensures var r := QueryUpstream(table, starts)[i];
            r.id in Fold(EMPTY, log).entities && r.id.tenant == walk.start.tenant
  {
    var walks := UpstreamRowsAreWalks(table, starts);
    walk := walks[i];
    assert walk in walks;
    FoldKeepsEdgesSane(EMPTY, log);
    WalkStaysInTenant(Fold(EMPTY, log), Upward, table, walk);
  }

  /**
   `query_downstream` counts existing entities of the asking tenant only, although it filters its start documents
   alone.
   */
  lemma DownstreamRowsStayInTenant(
    log: seq<Event>, tenant: string, path: string, table: seq<Edge>, starts: seq<EntityId>, i: nat)
    requires NoDuplicates(table) && forall e :: e in table <==> e in Fold(EMPTY, log).lineage
    requires DownstreamStarts(Fold(EMPTY, log), tenant, path, starts)
    requires i < |QueryDownstream(table, starts)|
    ensures var r := QueryDownstream(table, starts)[i];
            r.id in Fold(EMPTY, log).entities && r.id.tenant == tenant
  {
    var walks := DownstreamRowsAreWalks(table, starts);
    var w := walks[i];
    assert w in walks;
    FoldKeepsEdgesSane(EMPTY, log);
    WalkStaysInTenant(Fold(EMPTY, log), Downward, table, w);
  }
}
