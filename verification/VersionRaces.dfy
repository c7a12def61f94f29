/**
 Overlapping `create_schema_version` calls (services/metadata-service/src/db.py): the endpoint runs in a thread pool
 with one connection per request, so one call's UPDATE and INSERT can enclose another's. An UPDATE only retires the
 versions committed when it starts.
 */
module VersionRaces {
  import opened SchemaVersions

  /** A call that has started its UPDATE, and how many versions were committed by then. */
  datatype Creation = Creation(tenant: string, model: string, seen: nat)

  /** The committed versions, for each how many its own UPDATE had seen, and the calls under way. */
  datatype State = State(versions: seq<Version>, seen: seq<nat>, open: map<nat, Creation>)

  datatype Label =
    | Begin(id: nat, tenant: string, model: string)
    | Commit(id: nat)
    | Abort(id: nat)     // two INSERTs of one number collide on the unique constraint, or the request dies

  const INIT := State([], [], map[])

  function Retire(vs: seq<Version>, tenant: string, seen: nat): (r: seq<Version>)
    ensures SameButCurrent(vs, r)
    ensures forall i :: 0 <= i < |vs| ==> (r[i].current <==> vs[i].current && !(vs[i].tenant == tenant && i < seen))
  {
    seq(|vs|, i requires 0 <= i < |vs| =>
      if vs[i].tenant == tenant && i < seen then vs[i].(current := false) else vs[i])
  }

  ghost predicate Enabled(s: State, l: Label) {
    if l.Begin? then l.id !in s.open else l.id in s.open
  }

  ghost function Next(s: State, l: Label): State
    requires Enabled(s, l)
  {
    match l
    case Begin(id, tenant, model) => s.(open := s.open[id := Creation(tenant, model, |s.versions|)])
    case Commit(id) =>
      var c := s.open[id];
      var retired := Retire(s.versions, c.tenant, c.seen);
      State(
        retired + [Version(c.tenant, MaxNumber(retired, c.tenant) + 1, c.model, true)],
        s.seen + [c.seen],
        s.open - {id})
    case Abort(id) => s.(open := s.open - {id})
  }

  ghost predicate IsRun(states: seq<State>, labels: seq<Label>) {
    && |states| == |labels| + 1 && states[0] == INIT
    && forall k :: 0 <= k < |labels| ==> Enabled(states[k], labels[k]) && states[k + 1] == Next(states[k], labels[k])
  }

  /** A call that nobody interrupts does what `Create` does. */
  lemma UninterruptedIsCreate(s: State, id: nat, tenant: string, model: string)
    requires id !in s.open
    ensures Next(Next(s, Begin(id, tenant, model)), Commit(id)).versions == Create(s.versions, tenant, model)
  {
    assert Retire(s.versions, tenant, |s.versions|) == Deactivate(s.versions, tenant);
  }

  // ---- The invariant ----

  /** A later call of the tenant started after this version was committed. */
  ghost predicate Superseded(s: State, i: nat)
    requires i < |s.versions| == |s.seen|
  {
    exists j :: i < j < |s.versions| && s.versions[j].tenant == s.versions[i].tenant && i < s.seen[j]
  }

  ghost predicate Inv(s: State) {
    && |s.versions| == |s.seen| && AllPlaced(s.versions)
    && (forall i :: 0 <= i < |s.versions| ==> (s.versions[i].current <==> !Superseded(s, i)))
    && (forall id :: id in s.open ==> s.open[id].seen <= |s.versions|)
  }

  lemma CommitSupersedes(s: State, id: nat, i: nat)
    requires Inv(s) && id in s.open && i < |s.versions| + 1
    ensures var t := Next(s, Commit(id)); t.versions[i].current <==> !Superseded(t, i)
  {
    var t, n := Next(s, Commit(id)), |s.versions|;
    if i < n {
      if Superseded(s, i) {
        var j :| i < j < n && s.versions[j].tenant == s.versions[i].tenant && i < s.seen[j];
        assert t.versions[j].tenant == t.versions[i].tenant && i < t.seen[j];
      } else if s.versions[i].tenant == s.open[id].tenant && i < s.open[id].seen {
        assert t.versions[n].tenant == t.versions[i].tenant && i < t.seen[n];
      }
    }
  }

  lemma NextKeepsInv(s: State, l: Label)
    requires Inv(s) && Enabled(s, l)
    ensures Inv(Next(s, l))
  {
    var t := Next(s, l);
    match l {
      case Commit(id) =>
        var c := s.open[id];
        var retired := Retire(s.versions, c.tenant, c.seen);
        SamePlaces(s.versions, retired);
        AppendPlaces(retired, t.versions[|retired|]);
        forall i | 0 <= i < |t.versions| ensures t.versions[i].current <==> !Superseded(t, i) {
          CommitSupersedes(s, id, i);
        }
      case _ =>
        assert forall i :: 0 <= i < |s.versions| ==> (Superseded(t, i) <==> Superseded(s, i));
    }
  }

  lemma {:induction false} RunInv(states: seq<State>, labels: seq<Label>, n: nat)
    requires IsRun(states, labels) && n < |states|
    ensures Inv(states[n])
  {
    if n == 0 {
    } else {
      RunInv(states, labels, n - 1);
      NextKeepsInv(states[n - 1], labels[n - 1]);
    }
  }

  // ---- When one version is current ----

  ghost predicate OneIsCurrent(vs: seq<Version>, tenant: string) {
    exists c :: IsOnlyCurrent(vs, tenant, c)
  }

  ghost predicate IsOnlyCurrent(vs: seq<Version>, tenant: string, c: int) {
    && 0 <= c < |vs| && vs[c].tenant == tenant && vs[c].current
    && forall i :: 0 <= i < |vs| && vs[i].tenant == tenant && vs[i].current ==> i == c
  }

  /** l is the tenant's last version and p the one before it. */
  ghost predicate LastTwo(vs: seq<Version>, tenant: string, p: int, l: int) {
    && 0 <= p < l < |vs| && vs[p].tenant == tenant && vs[l].tenant == tenant
    && forall i :: p < i < |vs| && i != l ==> vs[i].tenant != tenant
  }

  lemma LastSupersedes(s: State, tenant: string, p: int, l: int, i: nat)
    requires |s.versions| == |s.seen| && LastTwo(s.versions, tenant, p, l) && s.seen[l] > p
    requires i < l && s.versions[i].tenant == tenant
    ensures Superseded(s, i)
  {
    assert i <= p;
    assert s.versions[l].tenant == s.versions[i].tenant && i < s.seen[l];
  }

  /**
   Overlapping creations. In every state of every run the tenant's versions are numbered 1, 2, .. in the order of their
   commits; and of a tenant with at least two versions exactly one is current if and only if the last call to commit
   had started its UPDATE after the call before it had committed.
   */
  lemma OneCurrentIff(states: seq<State>, labels: seq<Label>, n: nat, tenant: string, p: int, l: int)
    requires IsRun(states, labels) && n < |states| && LastTwo(states[n].versions, tenant, p, l)
    ensures |states[n].seen| == |states[n].versions| && AllPlaced(states[n].versions)
    ensures OneIsCurrent(states[n].versions, tenant) <==> states[n].seen[l] > p
  {
    RunInv(states, labels, n);
    var s := states[n];
    assert !Superseded(s, l) && s.versions[l].current;
    if s.seen[l] > p {
      forall i: nat | i < |s.versions| && s.versions[i].tenant == tenant && s.versions[i].current
        ensures i == l
      {
        if i < l {
          LastSupersedes(s, tenant, p, l, i);
        }
      }
      assert IsOnlyCurrent(s.versions, tenant, l);
    } else {
      assert !Superseded(s, p);
    }
  }
}
