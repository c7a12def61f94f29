/**
 The S3 connector (services/connector-s3/src/connector.py): objects newer than a stored watermark are published, and
 the watermark moves once, at the end of a poll, to the newest object the poll published.

 A poll is a plan of durable effects; a crash, a listing error or an abandoned generator leaves a prefix of it.
 */
module S3Connector {
  import opened Options

  /** One version of an object: a rewrite changes `modified`. */
  datatype Object = Object(name: string, modified: int)

  /** An object as one poll lists it, and whether its publish succeeds within the retries. */
  datatype Listed = Listed(obj: Object, sends: bool)

  datatype Config = Config(typeOf: string -> string, fileTypes: set<string>)

  datatype Effect =
    | ErrorRow(obj: Object)       // content type not in the allowlist
    | PendingRow(obj: Object)
    | Sent(obj: Object)
    | NotSent(obj: Object)        // all attempts raised; copies may have reached the topic all the same
    | SetWatermark(time: int)

  predicate Newer(obj: Object, watermark: Option<int>) {
    watermark.None? || obj.modified > watermark.value
  }

  predicate Allowed(cfg: Config, obj: Object) {
    cfg.typeOf(obj.name) in cfg.fileTypes
  }

  predicate Eligible(cfg: Config, watermark: Option<int>, obj: Object) {
    Newer(obj, watermark) && Allowed(cfg, obj)
  }

  function ObjectEffects(cfg: Config, watermark: Option<int>, l: Listed): seq<Effect> {
    if !Newer(l.obj, watermark) then []
    else if !Allowed(cfg, l.obj) then [ErrorRow(l.obj)]
    else [PendingRow(l.obj), if l.sends then Sent(l.obj) else NotSent(l.obj)]
  }

  function Body(cfg: Config, watermark: Option<int>, listed: seq<Listed>): seq<Effect> {
    if |listed| == 0 then []
    else Body(cfg, watermark, listed[..|listed| - 1]) + ObjectEffects(cfg, watermark, listed[|listed| - 1])
  }

  /** The newest of the old watermark and the objects published. */
  function Advanced(cfg: Config, watermark: Option<int>, listed: seq<Listed>): Option<int> {
    if |listed| == 0 then watermark
    else
      var l := listed[|listed| - 1];
      var sofar := Advanced(cfg, watermark, listed[..|listed| - 1]);
      if Eligible(cfg, watermark, l.obj) && l.sends && Newer(l.obj, sofar) then Some(l.obj.modified) else sofar
  }

  function Plan(cfg: Config, watermark: Option<int>, listed: seq<Listed>): seq<Effect> {
    var advanced := Advanced(cfg, watermark, listed);
    Body(cfg, watermark, listed)
        + (if advanced.Some? && advanced != watermark then [SetWatermark(advanced.value)] else [])
  }

  class S3Connector {
    const cfg: Config
    var watermark: Option<int>     // in Redis
    var log: seq<Effect>

    constructor (cfg: Config, watermark: Option<int>)
      ensures this.cfg == cfg && this.watermark == watermark && log == []
    {
      this.cfg, this.watermark, this.log := cfg, watermark, [];
    }

    /** One listed object; `sofar` is the newest time published by the poll until now. */
    method PollObject(l: Listed, sofar: Option<int>) returns (newest: Option<int>)
      modifies this`log
      ensures log == old(log) + ObjectEffects(cfg, watermark, l)
      ensures newest == if Eligible(cfg, watermark, l.obj) && l.sends && Newer(l.obj, sofar)
                        then Some(l.obj.modified) else sofar
    {
      newest := sofar;
      if watermark.Some? && l.obj.modified <= watermark.value {
        return;
      }
      if cfg.typeOf(l.obj.name) !in cfg.fileTypes {
        log := log + [ErrorRow(l.obj)];
        return;
      }
      log := log + [PendingRow(l.obj)];
      if !l.sends {
        log := log + [NotSent(l.obj)];
        return;
      }
      log := log + [Sent(l.obj)];
      if sofar.None? || l.obj.modified > sofar.value {
        newest := Some(l.obj.modified);
      }
    }

    method Poll(listed: seq<Listed>)
      modifies this
      ensures log == old(log) + Plan(cfg, old(watermark), listed)
      ensures watermark == Advanced(cfg, old(watermark), listed)
    {
      var newWatermark := watermark;
      var i := 0;
      while i < |listed|
        invariant i <= |listed|
        invariant watermark == old(watermark)
        invariant newWatermark == Advanced(cfg, watermark, listed[..i])
        invariant log == old(log) + Body(cfg, watermark, listed[..i])
      {
        OneMore(cfg, watermark, listed, i);
        newWatermark := PollObject(listed[i], newWatermark);
        i := i + 1;
      }
      assert listed[..|listed|] == listed;
      AdvancedIsMax(cfg, watermark, listed);
      if newWatermark.Some? && newWatermark != watermark {
        watermark := newWatermark;
        log := log + [SetWatermark(newWatermark.value)];
      }
    }
  }

  lemma OneMore(cfg: Config, watermark: Option<int>, listed: seq<Listed>, i: nat)
    requires i < |listed|
    ensures Body(cfg, watermark, listed[..i + 1])
            == Body(cfg, watermark, listed[..i]) + ObjectEffects(cfg, watermark, listed[i])
    ensures var sofar := Advanced(cfg, watermark, listed[..i]);
            Advanced(cfg, watermark, listed[..i + 1]) ==
            if Eligible(cfg, watermark, listed[i].obj) && listed[i].sends && Newer(listed[i].obj, sofar)
            then Some(listed[i].obj.modified) else sofar
  {
    assert listed[..i + 1][..i] == listed[..i] && listed[..i + 1][i] == listed[i];
  }

  // ---- Runs of polls, each completed or cut short ----

  datatype Poll = Poll(listed: seq<Listed>, cut: nat)

  function Cut(es: seq<Effect>, n: nat): seq<Effect> {
    if n < |es| then es[..n] else es
  }

  function Done(cfg: Config, watermark: Option<int>, p: Poll): seq<Effect> {
    Cut(Plan(cfg, watermark, p.listed), p.cut)
  }

  predicate Completed(cfg: Config, watermark: Option<int>, p: Poll) {
    p.cut >= |Plan(cfg, watermark, p.listed)|
  }

  /** The stored watermark after some effects: the last one written. */
  function Stored(watermark: Option<int>, es: seq<Effect>): Option<int> {
    if |es| == 0 then watermark
    else if es[|es| - 1].SetWatermark? then Some(es[|es| - 1].time)
    else Stored(watermark, es[..|es| - 1])
  }

  function After(cfg: Config, watermark: Option<int>, polls: seq<Poll>): Option<int> {
    if |polls| == 0 then watermark
    else
      var before := After(cfg, watermark, polls[..|polls| - 1]);
      Stored(before, Done(cfg, before, polls[|polls| - 1]))
  }

  /** The watermark the i-th poll starts from, and what that poll does. */
  function Before(cfg: Config, w: Option<int>, polls: seq<Poll>, i: nat): Option<int>
    requires i <= |polls|
  {
    After(cfg, w, polls[..i])
  }

  function DoneBy(cfg: Config, w: Option<int>, polls: seq<Poll>, i: nat): seq<Effect>
    requires i < |polls|
  {
    Done(cfg, Before(cfg, w, polls, i), polls[i])
  }

  predicate NotBelow(later: Option<int>, earlier: Option<int>) {
    earlier.Some? ==> later.Some? && later.value >= earlier.value
  }

  /** The poll handed this object to the producer, with or without success. */
  predicate Touches(es: seq<Effect>, obj: Object) {
    Sent(obj) in es || NotSent(obj) in es
  }

  // ---- One poll ----

  ghost predicate IsBodyEffect(cfg: Config, watermark: Option<int>, listed: seq<Listed>, e: Effect) {
    exists l :: l in listed && e in ObjectEffects(cfg, watermark, l)
  }

  lemma {:induction false} BodyMembers(cfg: Config, watermark: Option<int>, listed: seq<Listed>, e: Effect)
    ensures e in Body(cfg, watermark, listed) <==> IsBodyEffect(cfg, watermark, listed, e)
  {
    if |listed| == 0 {
    } else {
      var front := listed[..|listed| - 1];
      BodyMembers(cfg, watermark, front, e);
      assert forall l :: l in listed <==> l in front || l == listed[|listed| - 1];
    }
  }

  lemma {:induction false} AdvancedIsMax(cfg: Config, watermark: Option<int>, listed: seq<Listed>)
    ensures var a := Advanced(cfg, watermark, listed);
            && NotBelow(a, watermark)
            && (forall l :: l in listed && l.sends && Eligible(cfg, watermark, l.obj) ==>
                NotBelow(a, Some(l.obj.modified)))
            && (a == watermark
                || exists l :: l in listed && l.sends && Eligible(cfg, watermark, l.obj) && a == Some(l.obj.modified))
  {
    if |listed| == 0 {
    } else {
      var front := listed[..|listed| - 1];
      var last := listed[|listed| - 1];
      AdvancedIsMax(cfg, watermark, front);
      assert forall l :: l in listed <==> l in front || l == last;
      assert last in listed;
    }
  }

  /** Only a completed poll stores a watermark, and then the newest published time. */
  lemma DoneStores(cfg: Config, watermark: Option<int>, p: Poll)
    ensures Stored(watermark, Done(cfg, watermark, p)) ==
            if Completed(cfg, watermark, p) then Advanced(cfg, watermark, p.listed) else watermark
  {
    var body := Body(cfg, watermark, p.listed);
    var plan := Plan(cfg, watermark, p.listed);
    var done := Done(cfg, watermark, p);
    AdvancedIsMax(cfg, watermark, p.listed);
    forall e | e in body ensures !e.SetWatermark? {
      BodyMembers(cfg, watermark, p.listed, e);
    }
    if p.cut >= |plan| && |plan| > |body| {
      assert done[|done| - 1].SetWatermark?;
    } else {
      assert forall i :: 0 <= i < |done| ==> done[i] == body[i];
      NothingStored(watermark, done);
    }
  }

  lemma {:induction false} NothingStored(watermark: Option<int>, es: seq<Effect>)
    requires forall i :: 0 <= i < |es| ==> !es[i].SetWatermark?
    ensures Stored(watermark, es) == watermark
  {
    if |es| == 0 {
    } else {
      NothingStored(watermark, es[..|es| - 1]);
    }
  }

  /** What a completed poll publishes: the eligible objects listed, those whose publish succeeds. */
  lemma CompletedPublishes(cfg: Config, watermark: Option<int>, p: Poll, obj: Object)
    requires Completed(cfg, watermark, p)
    ensures Sent(obj) in Done(cfg, watermark, p) <==> Eligible(cfg, watermark, obj) && Listed(obj, true) in p.listed
    ensures NotSent(obj) in Done(cfg, watermark, p) <==> Eligible(cfg, watermark, obj) && Listed(obj, false) in p.listed
  {
    BodyMembers(cfg, watermark, p.listed, Sent(obj));
    BodyMembers(cfg, watermark, p.listed, NotSent(obj));
    EligibleEffect(cfg, watermark, p.listed, obj, true);
    EligibleEffect(cfg, watermark, p.listed, obj, false);
  }

  lemma EligibleEffect(cfg: Config, watermark: Option<int>, listed: seq<Listed>, obj: Object, sends: bool)
    ensures Eligible(cfg, watermark, obj) && Listed(obj, sends) in listed ==>
              IsBodyEffect(cfg, watermark, listed, if sends then Sent(obj) else NotSent(obj))
  {
    if Eligible(cfg, watermark, obj) && Listed(obj, sends) in listed {
      var es := ObjectEffects(cfg, watermark, Listed(obj, sends));
      assert es[1] == if sends then Sent(obj) else NotSent(obj);
    }
  }

  /** Completed or not, a poll hands over eligible objects only. */
  lemma TouchedIsEligible(cfg: Config, watermark: Option<int>, p: Poll, obj: Object)
    requires Touches(Done(cfg, watermark, p), obj)
    ensures Eligible(cfg, watermark, obj)
    ensures Sent(obj) in Done(cfg, watermark, p) ==> Listed(obj, true) in p.listed
  {
    BodyMembers(cfg, watermark, p.listed, Sent(obj));
    BodyMembers(cfg, watermark, p.listed, NotSent(obj));
  }

  // ---- All runs ----

  lemma PollNeverLowers(cfg: Config, watermark: Option<int>, p: Poll)
    ensures NotBelow(Stored(watermark, Done(cfg, watermark, p)), watermark)
  {
    DoneStores(cfg, watermark, p);
    AdvancedIsMax(cfg, watermark, p.listed);
  }

  /** The watermark never decreases. */
  lemma {:induction false} WatermarkNeverDecreases(cfg: Config, w: Option<int>, polls: seq<Poll>, i: nat, j: nat)
    requires i <= j <= |polls|
    ensures NotBelow(Before(cfg, w, polls, j), Before(cfg, w, polls, i))
    decreases j
  {
    if i == j {
    } else {
      WatermarkNeverDecreases(cfg, w, polls, i, j - 1);
      assert polls[..j][..j - 1] == polls[..j - 1];
      PollNeverLowers(cfg, Before(cfg, w, polls, j - 1), polls[j - 1]);
    }
  }

  lemma CompletedRaises(cfg: Config, w: Option<int>, polls: seq<Poll>, i: nat, obj: Object)
    requires i < |polls| && Completed(cfg, Before(cfg, w, polls, i), polls[i]) && Sent(obj) in DoneBy(cfg, w, polls, i)
    ensures NotBelow(Before(cfg, w, polls, i + 1), Some(obj.modified))
  {
    var before := Before(cfg, w, polls, i);
    CompletedPublishes(cfg, before, polls[i], obj);
    AdvancedIsMax(cfg, before, polls[i].listed);
    DoneStores(cfg, before, polls[i]);
    assert polls[..i + 1][..i] == polls[..i];
  }

  /**
   A version that a completed poll published is not handed to the producer by any later poll, and neither is anything
   no newer than it.
   */
  lemma PublishedOnce(cfg: Config, w: Option<int>, polls: seq<Poll>, i: nat, j: nat, obj: Object, other: Object)
    requires i < j < |polls|
    requires Completed(cfg, Before(cfg, w, polls, i), polls[i])
    requires Sent(obj) in DoneBy(cfg, w, polls, i) && other.modified <= obj.modified
    ensures !Touches(DoneBy(cfg, w, polls, j), other)
  {
    CompletedRaises(cfg, w, polls, i, obj);
    WatermarkNeverDecreases(cfg, w, polls, i + 1, j);
    if Touches(DoneBy(cfg, w, polls, j), other) {
      TouchedIsEligible(cfg, Before(cfg, w, polls, j), polls[j], other);
    }
  }

  /** A version is published twice only when the earlier poll was cut short, and that poll left the watermark alone. */
  lemma RepeatedOnlyAfterCrash(cfg: Config, w: Option<int>, polls: seq<Poll>, i: nat, j: nat, obj: Object)
    requires i < j < |polls|
    requires Sent(obj) in DoneBy(cfg, w, polls, i) && Touches(DoneBy(cfg, w, polls, j), obj)
    ensures !Completed(cfg, Before(cfg, w, polls, i), polls[i])
    ensures Before(cfg, w, polls, i + 1) == Before(cfg, w, polls, i)
  {
    if Completed(cfg, Before(cfg, w, polls, i), polls[i]) {
      PublishedOnce(cfg, w, polls, i, j, obj, obj);
      assert false;
    }
    assert polls[..i + 1][..i] == polls[..i];
    DoneStores(cfg, Before(cfg, w, polls, i), polls[i]);
  }

  /** No later poll, whatever it lists, hands the object over again. */
  ghost predicate NeverAgain(cfg: Config, w: Option<int>, obj: Object) {
    forall polls: seq<Poll>, j: nat :: j < |polls| ==> !Touches(DoneBy(cfg, w, polls, j), obj)
  }

  lemma NeverAgainIff(cfg: Config, w: Option<int>, obj: Object)
    requires Allowed(cfg, obj)
    ensures NeverAgain(cfg, w, obj) <==> !Newer(obj, w)
  {
    if Newer(obj, w) {
      var again := Poll([Listed(obj, true)], 3);
      assert [again][..0] == [] && Before(cfg, w, [again], 0) == w;
      assert |Body(cfg, w, again.listed)| <= 2 by {
        assert again.listed[..0] == [];
      }
      CompletedPublishes(cfg, w, again, obj);
      assert Touches(DoneBy(cfg, w, [again], 0), obj);
    } else {
      forall polls: seq<Poll>, j: nat | j < |polls|
        ensures !Touches(DoneBy(cfg, w, polls, j), obj)
      {
        assert polls[..0] == [];
        WatermarkNeverDecreases(cfg, w, polls, 0, j);
        if Touches(DoneBy(cfg, w, polls, j), obj) {
          TouchedIsEligible(cfg, Before(cfg, w, polls, j), polls[j], obj);
        }
      }
    }
  }

  ghost predicate AsNewPublished(cfg: Config, w: Option<int>, p: Poll, obj: Object) {
    exists other: Object :: Sent(other) in Done(cfg, w, p) && other.modified >= obj.modified
  }

  /**
   An allowed object that a poll lists above its watermark falls behind for good (no later poll tries it, whatever
   happens) exactly when the poll completed and published something at least as new: so a failed object is lost
   exactly when another object of the same completed poll, no older than it, got through.
   */
  lemma FallsBehindIff(cfg: Config, w: Option<int>, p: Poll, obj: Object)
    requires Eligible(cfg, w, obj)
    ensures NeverAgain(cfg, Stored(w, Done(cfg, w, p)), obj) <==> Completed(cfg, w, p) && AsNewPublished(cfg, w, p, obj)
  {
    var next := Stored(w, Done(cfg, w, p));
    NeverAgainIff(cfg, next, obj);
    DoneStores(cfg, w, p);
    AdvancedIsMax(cfg, w, p.listed);
    if Completed(cfg, w, p) {
      forall other | Sent(other) in Done(cfg, w, p) ensures NotBelow(next, Some(other.modified)) {
        CompletedPublishes(cfg, w, p, other);
      }
      if !Newer(obj, next) {
        var l :| l in p.listed && l.sends && Eligible(cfg, w, l.obj) && next == Some(l.obj.modified);
        assert l == Listed(l.obj, true);
        CompletedPublishes(cfg, w, p, l.obj);
        assert Sent(l.obj) in Done(cfg, w, p);
      }
    }
  }

  /** A completed poll in which no publish failed has published every allowed object it listed above its watermark. */
  lemma CleanPollPublishesAll(cfg: Config, w: Option<int>, p: Poll)
    requires Completed(cfg, w, p)
    ensures (forall obj :: NotSent(obj) !in Done(cfg, w, p)) <==>
            (forall l :: l in p.listed && Eligible(cfg, w, l.obj) ==> l.sends)
    ensures (forall obj :: NotSent(obj) !in Done(cfg, w, p)) ==>
            forall l :: l in p.listed && Eligible(cfg, w, l.obj) ==> Sent(l.obj) in Done(cfg, w, p)
  {
    forall l | l in p.listed && Eligible(cfg, w, l.obj)
      ensures l.sends ==> Sent(l.obj) in Done(cfg, w, p)
      ensures !l.sends ==> NotSent(l.obj) in Done(cfg, w, p)
    {
      assert l == Listed(l.obj, l.sends);
      CompletedPublishes(cfg, w, p, l.obj);
    }
    forall obj | NotSent(obj) in Done(cfg, w, p)
      ensures exists l :: l in p.listed && Eligible(cfg, w, l.obj) && !l.sends
    {
      CompletedPublishes(cfg, w, p, obj);
      assert !Listed(obj, false).sends;
    }
  }
}
