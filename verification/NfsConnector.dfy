/**
 The NFS connector (services/connector-nfs/src/connector.py): while the file watcher lives, a poll drains its queue;
 otherwise it compares the tree with the set of known files. Every published file is marked as known.

 A poll is a plan of durable effects. A crash, an error of Redis or the database, or an abandoned generator leaves a
 prefix of it, and the paths already drained are gone.
 */
module NfsConnector {
  import opened Lexicographic

  // ---- The order in which `sorted` puts the paths ----

  predicate Less(a: string, b: string) {
    Lexicographic.Less(Codes(a), Codes(b))
  }

  lemma LessIsTotal(a: string, b: string)
    ensures a == b || Less(a, b) || Less(b, a)
    ensures !(Less(a, b) && Less(b, a))
  {
    Lexicographic.LessIsTotal(Codes(a), Codes(b));
    if Codes(a) == Codes(b) {
      CodesInjective(a, b);
    }
  }

  predicate IsFirst(m: string, paths: set<string>) {
    m in paths && forall p :: p in paths ==> p == m || Less(m, p)
  }

  lemma {:induction false} FirstExists(paths: set<string>)
    requires paths != {}
    ensures exists m :: IsFirst(m, paths)
  {
    var x :| x in paths;
    var rest := paths - {x};
    if rest == {} {
      assert paths == {x};
      assert IsFirst(x, paths);
    } else {
      FirstExists(rest);
      var m :| IsFirst(m, rest);
      LessIsTotal(x, m);
      if Less(x, m) {
        forall p | p in paths ensures p == x || Less(x, p) {
          if p in rest && p != m {
            LessIsTransitive(Codes(x), Codes(m), Codes(p));
          }
        }
        assert IsFirst(x, paths);
      } else {
        assert IsFirst(m, paths);
      }
    }
  }

  lemma FirstIsUnique(paths: set<string>)
    ensures forall m, n :: IsFirst(m, paths) && IsFirst(n, paths) ==> m == n
  {
    forall m, n | IsFirst(m, paths) && IsFirst(n, paths) ensures m == n {
      LessIsTotal(m, n);
    }
  }

  function First(paths: set<string>): (m: string)
    requires paths != {}
    ensures IsFirst(m, paths)
  {
    FirstExists(paths);
    FirstIsUnique(paths);
    var m :| m in paths && IsFirst(m, paths);
    m
  }

  function Sorted(paths: set<string>): (s: seq<string>)
    ensures forall p :: p in s <==> p in paths
    ensures forall i, j :: 0 <= i < j < |s| ==> Less(s[i], s[j])
    decreases |paths|
  {
    if paths == {} then []
    else
      var m := First(paths);
      var rest := Sorted(paths - {m});
      assert forall i :: 0 <= i < |rest| ==> rest[i] in paths - {m};
      [m] + rest
  }

  // ---- Polls ----

  datatype Effect =
    | PendingRow(path: string)
    | Sent(path: string)
    | NotSent(path: string)     // all attempts raised; copies may have reached the topic all the same
    | Mark(path: string)        // SADD to the known files

  /** What one poll meets. */
  datatype Env = Env(
    watching: bool,             // the observer is alive
    walked: seq<string>,        // the files a walk of the mount sees
    present: set<string>,       // the paths that are files when their turn comes
    sends: set<string>)         // the paths whose publish succeeds within the retries

  type Allowed = string -> bool

  datatype State = State(known: set<string>, queue: seq<string>, log: seq<Effect>)

  function Candidates(allowed: Allowed, s: State, env: Env): set<string> {
    if env.watching then set p | p in s.queue else (set p | p in env.walked && allowed(p)) - s.known
  }

  function PathEffects(allowed: Allowed, env: Env, path: string): seq<Effect> {
    if path !in env.present || !allowed(path) then []
    else [PendingRow(path)] + (if path in env.sends then [Sent(path), Mark(path)] else [NotSent(path)])
  }

  function Effects(allowed: Allowed, env: Env, paths: seq<string>): seq<Effect> {
    if |paths| == 0 then [] else PathEffects(allowed, env, paths[0]) + Effects(allowed, env, paths[1..])
  }

  function Plan(allowed: Allowed, s: State, env: Env): seq<Effect> {
    Effects(allowed, env, Sorted(Candidates(allowed, s, env)))
  }

  function Marked(es: seq<Effect>): set<string> {
    set e | e in es && e.Mark? :: e.path
  }

  /** The state after a poll of which these effects took place. */
  function AfterPoll(s: State, env: Env, done: seq<Effect>): State {
    State(s.known + Marked(done), if env.watching then [] else s.queue, s.log + done)
  }

  class NFSConnector {
    const allowed: Allowed
    var known: set<string>      // in Redis
    var queue: seq<string>      // in memory
    ghost var log: seq<Effect>

    ghost function View(): State
      reads this
    {
      State(known, queue, log)
    }

    constructor (allowed: Allowed, known: set<string>)
      ensures this.allowed == allowed && View() == State(known, [], [])
    {
      this.allowed, this.known, this.queue, this.log := allowed, known, [], [];
    }

    /** The watcher's callbacks: created and modified files alike. */
    method OnChange(path: string)
      modifies this`queue
      ensures View() == Next(allowed, old(View()), Watch(path))
    {
      if allowed(path) {
        queue := queue + [path];
      }
    }

    method DrainQueue() returns (paths: set<string>)
      modifies this`queue
      ensures paths == (set p | p in old(queue)) && queue == []
    {
      paths := {};
      while |queue| > 0
        invariant paths + (set p | p in queue) == set p | p in old(queue)
      {
        assert forall p :: p in queue <==> p == queue[0] || p in queue[1..];
        paths := paths + {queue[0]};
        queue := queue[1..];
      }
    }

    method TreeDiff(walked: seq<string>) returns (paths: set<string>)
      ensures paths == (set p | p in walked && allowed(p)) - known
    {
      var current: set<string> := {};
      var i := 0;
      while i < |walked|
        invariant i <= |walked|
        invariant current == set p | p in walked[..i] && allowed(p)
      {
        assert forall p :: p in walked[..i + 1] <==> p in walked[..i] || p == walked[i];
        if allowed(walked[i]) {
          current := current + {walked[i]};
        }
        i := i + 1;
      }
      assert walked[..|walked|] == walked;
      paths := current - known;
    }

    method PollPath(env: Env, path: string)
      modifies this`known, this`log
      ensures log == old(log) + PathEffects(allowed, env, path)
      ensures known == old(known) + Marked(PathEffects(allowed, env, path))
    {
      if path !in env.present || !allowed(path) {
        return;
      }
      log := log + [PendingRow(path)];
      if path !in env.sends {
        log := log + [NotSent(path)];
        return;
      }
      log := log + [Sent(path)];
      known := known + {path};
      log := log + [Mark(path)];
      assert Mark(path) in PathEffects(allowed, env, path);
    }

    method PollPaths(env: Env, order: seq<string>)
      modifies this`known, this`log
      ensures log == old(log) + Effects(allowed, env, order)
      ensures known == old(known) + Marked(Effects(allowed, env, order))
    {
      var i := 0;
      ghost var done := [];
      while i < |order|
        invariant i <= |order| && DoneUpTo(allowed, env, order, i, done)
        invariant log == old(log) + done
        invariant known == old(known) + Marked(done)
      {
        OnePathMore(allowed, env, order, i, done);
        PollPath(env, order[i]);
        done := done + PathEffects(allowed, env, order[i]);
        i := i + 1;
      }
    }

    /** A poll that runs to its end. */
    method Poll(env: Env)
      modifies this
      ensures View() == AfterPoll(old(View()), env, Plan(allowed, old(View()), env))
    {
      var paths;
      if env.watching {
        paths := DrainQueue();
      } else {
        paths := TreeDiff(env.walked);
      }
      PollPaths(env, Sorted(paths));
    }
  }

  /** What is done for the first i paths; for all of them it is everything. */
  ghost predicate DoneUpTo(allowed: Allowed, env: Env, order: seq<string>, i: nat, done: seq<Effect>)
    requires i <= |order|
  {
    done + Effects(allowed, env, order[i..]) == Effects(allowed, env, order)
  }

  lemma OnePathMore(allowed: Allowed, env: Env, order: seq<string>, i: nat, done: seq<Effect>)
    requires i < |order| && DoneUpTo(allowed, env, order, i, done)
    ensures var head := PathEffects(allowed, env, order[i]);
            && DoneUpTo(allowed, env, order, i + 1, done + head)
            && Marked(done + head) == Marked(done) + Marked(head)
  {
    assert order[i..][0] == order[i] && order[i..][1..] == order[i + 1..];
    MarkedOfSum(done, PathEffects(allowed, env, order[i]));
  }

  lemma MarkedOfSum(a: seq<Effect>, b: seq<Effect>)
    ensures Marked(a + b) == Marked(a) + Marked(b)
  {
    forall p | p in Marked(a) ensures p in Marked(a + b) {
      assert Mark(p) in a + b;
    }
    forall p | p in Marked(b) ensures p in Marked(a + b) {
      assert Mark(p) in a + b;
    }
  }

  // ---- Runs ----

  datatype Step =
    | Watch(path: string)
    | Poll(env: Env, cut: nat)    // only the first `cut` effects take place
    | Restart                     // a new process: the queue is lost

  function Cut(es: seq<Effect>, n: nat): seq<Effect> {
    if n < |es| then es[..n] else es
  }

  function Done(allowed: Allowed, s: State, step: Step): seq<Effect> {
    if step.Poll? then Cut(Plan(allowed, s, step.env), step.cut) else []
  }

  predicate Completed(allowed: Allowed, s: State, step: Step) {
    step.Poll? && step.cut >= |Plan(allowed, s, step.env)|
  }

  function Next(allowed: Allowed, s: State, step: Step): State {
    match step
    case Watch(path) => if allowed(path) then s.(queue := s.queue + [path]) else s
    case Poll(env, _) => AfterPoll(s, env, Done(allowed, s, step))
    case Restart => s.(queue := [])
  }

  function Run(allowed: Allowed, s: State, steps: seq<Step>): State {
    if |steps| == 0 then s else Next(allowed, Run(allowed, s, steps[..|steps| - 1]), steps[|steps| - 1])
  }

  predicate Touches(es: seq<Effect>, path: string) {
    Sent(path) in es || NotSent(path) in es
  }

  // ---- One poll ----

  /** The plan says of each path what becomes of it, and a mark directly follows its publish. */
  ghost predicate Describes(allowed: Allowed, env: Env, paths: seq<string>, es: seq<Effect>) {
    && (forall p :: Sent(p) in es <==> p in paths && p in env.present && allowed(p) && p in env.sends)
    && (forall p :: NotSent(p) in es <==> p in paths && p in env.present && allowed(p) && p !in env.sends)
    && (forall i :: 0 <= i < |es| && es[i].Mark? ==> i > 0 && es[i - 1] == Sent(es[i].path))
    && (forall i :: 0 <= i < |es| && es[i].Sent? ==> i + 1 < |es| && es[i + 1] == Mark(es[i].path))
  }

  lemma {:induction false} EffectsDescribed(allowed: Allowed, env: Env, paths: seq<string>)
    ensures Describes(allowed, env, paths, Effects(allowed, env, paths))
  {
    if |paths| == 0 {
    } else {
      EffectsDescribed(allowed, env, paths[1..]);
      PathDescribed(allowed, env, paths[0]);
      SumDescribed(allowed, env, [paths[0]], paths[1..], PathEffects(allowed, env, paths[0]),
          Effects(allowed, env, paths[1..]));
      assert [paths[0]] + paths[1..] == paths;
    }
  }

  lemma PathDescribed(allowed: Allowed, env: Env, path: string)
    ensures Describes(allowed, env, [path], PathEffects(allowed, env, path))
  {}

  lemma SumDescribed(allowed: Allowed, env: Env, p1: seq<string>, p2: seq<string>, a: seq<Effect>, b: seq<Effect>)
    requires Describes(allowed, env, p1, a) && Describes(allowed, env, p2, b)
    ensures Describes(allowed, env, p1 + p2, a + b)
  {
    var es := a + b;
    forall i | 0 <= i < |es| && es[i].Mark? ensures i > 0 && es[i - 1] == Sent(es[i].path) {
      if i >= |a| {
        assert b[i - |a|].Mark?;
      }
    }
    forall i | 0 <= i < |es| && es[i].Sent? ensures i + 1 < |es| && es[i + 1] == Mark(es[i].path) {
      if i >= |a| {
        assert b[i - |a|].Sent?;
      }
    }
  }

  /** Cut short or not, a poll marks nothing it has not published. */
  lemma MarkedWasSent(allowed: Allowed, s: State, step: Step, path: string)
    requires path in Marked(Done(allowed, s, step))
    ensures Sent(path) in Done(allowed, s, step)
  {
    var done := Done(allowed, s, step);
    EffectsDescribed(allowed, step.env, Sorted(Candidates(allowed, s, step.env)));
    var i :| 0 <= i < |done| && done[i] == Mark(path);
    var plan := Plan(allowed, s, step.env);
    assert plan[i] == done[i];
    assert done[i - 1] == plan[i - 1];
  }

  /** A poll touches candidates only. */
  lemma TouchedIsCandidate(allowed: Allowed, s: State, step: Step, path: string)
    requires Touches(Done(allowed, s, step), path)
    ensures step.Poll? && path in Candidates(allowed, s, step.env) && allowed(path) && path in step.env.present
  {
    EffectsDescribed(allowed, step.env, Sorted(Candidates(allowed, s, step.env)));
  }

  /**
   A completed poll tries exactly the allowed candidates that still exist, and publishes those whose publish succeeds.
   */
  lemma CompletedTries(allowed: Allowed, s: State, step: Step, path: string)
    requires Completed(allowed, s, step)
    ensures Touches(Done(allowed, s, step), path) <==>
            path in Candidates(allowed, s, step.env) && allowed(path) && path in step.env.present
    ensures Sent(path) in Done(allowed, s, step) <==> Touches(Done(allowed, s, step), path) && path in step.env.sends
    ensures path in Marked(Done(allowed, s, step)) <==> Sent(path) in Done(allowed, s, step)
  {
    var done := Done(allowed, s, step);
    EffectsDescribed(allowed, step.env, Sorted(Candidates(allowed, s, step.env)));
    if Sent(path) in done {
      var i :| 0 <= i < |done| && done[i] == Sent(path);
      assert done[i + 1] == Mark(path);
      assert Mark(path) in done;
    }
    if path in Marked(done) {
      MarkedWasSent(allowed, s, step, path);
    }
  }

  /** While the tree is compared, a completed poll tries exactly the allowed existing files that are not known. */
  lemma TreeDiffTries(allowed: Allowed, s: State, step: Step, path: string)
    requires Completed(allowed, s, step) && !step.env.watching
    ensures Touches(Done(allowed, s, step), path) <==>
            path in step.env.walked && path in step.env.present && allowed(path) && path !in s.known
    ensures path in Next(allowed, s, step).known <==> path in s.known || Sent(path) in Done(allowed, s, step)
    // a file whose publish failed stays eligible
    ensures NotSent(path) in Done(allowed, s, step) ==> path !in Next(allowed, s, step).known
  {
    CompletedTries(allowed, s, step, path);
    EffectsDescribed(allowed, step.env, Sorted(Candidates(allowed, s, step.env)));
  }

  /**
   A poll that publishes a file without marking it stops right there: a crash leaves at most one file to be sent
   again.
   */
  lemma UnmarkedIsLast(allowed: Allowed, s: State, step: Step, path: string)
    requires Sent(path) in Done(allowed, s, step) && path !in Next(allowed, s, step).known
    ensures var done := Done(allowed, s, step); done[|done| - 1] == Sent(path)
  {
    var done := Done(allowed, s, step);
    EffectsDescribed(allowed, step.env, Sorted(Candidates(allowed, s, step.env)));
    var plan := Plan(allowed, s, step.env);
    var i :| 0 <= i < |done| && done[i] == Sent(path);
    assert plan[i] == done[i];
    assert plan[i + 1] == Mark(path);
    assert Mark(path) !in done;
    assert i + 1 == |done|;
  }

  // ---- All runs ----

  lemma {:induction false} KnownOnlyGrows(allowed: Allowed, s: State, steps: seq<Step>, i: nat)
    requires i <= |steps|
    ensures Run(allowed, s, steps[..i]).known <= Run(allowed, s, steps).known
    decreases |steps|
  {
    if i == |steps| {
      assert steps[..i] == steps;
    } else {
      KnownOnlyGrows(allowed, s, steps[..|steps| - 1], i);
      assert steps[..|steps| - 1][..i] == steps[..i];
    }
  }

  /**
   In every state, even between a publish and its mark, each known file was known at the start or has been published.
   */
  lemma {:induction false} KnownWasPublished(allowed: Allowed, s: State, steps: seq<Step>, path: string)
    requires path in Run(allowed, s, steps).known
    ensures path in s.known || Sent(path) in Run(allowed, s, steps).log
    decreases |steps|
  {
    if |steps| == 0 {
    } else {
      var before := Run(allowed, s, steps[..|steps| - 1]);
      var step := steps[|steps| - 1];
      if path in before.known {
        KnownWasPublished(allowed, s, steps[..|steps| - 1], path);
      } else {
        MarkedWasSent(allowed, before, step, path);
      }
    }
  }

  /** Once marked, a file is never sent again by a comparison of the tree, at any later point of any run. */
  lemma MarkedStaysQuiet(allowed: Allowed, s: State, steps: seq<Step>, i: nat, path: string)
    requires i < |steps| && path in s.known
    requires steps[i].Poll? && !steps[i].env.watching
    ensures !Touches(Done(allowed, Run(allowed, s, steps[..i]), steps[i]), path)
  {
    KnownOnlyGrows(allowed, s, steps[..i], 0);
    assert steps[..i][..0] == [];
    if Touches(Done(allowed, Run(allowed, s, steps[..i]), steps[i]), path) {
      TouchedIsCandidate(allowed, Run(allowed, s, steps[..i]), steps[i], path);
    }
  }

  /**
   Between two comparisons of the tree that both try a file, the first has either failed to publish it or been cut off
   right after publishing it.
   */
  lemma TriedTwice(allowed: Allowed, s: State, steps: seq<Step>, i: nat, j: nat, path: string)
    requires i < j < |steps| && steps[j].Poll? && !steps[j].env.watching
    requires Touches(Done(allowed, Run(allowed, s, steps[..i]), steps[i]), path)
    requires Touches(Done(allowed, Run(allowed, s, steps[..j]), steps[j]), path)
    ensures var done := Done(allowed, Run(allowed, s, steps[..i]), steps[i]);
            NotSent(path) in done || done[|done| - 1] == Sent(path)
  {
    var before := Run(allowed, s, steps[..i]);
    assert steps[..i + 1][..i] == steps[..i] && steps[..j][..i + 1] == steps[..i + 1];
    KnownOnlyGrows(allowed, s, steps[..j], i + 1);
    TouchedIsCandidate(allowed, Run(allowed, s, steps[..j]), steps[j], path);
    assert path !in Next(allowed, before, steps[i]).known;
    if Sent(path) in Done(allowed, before, steps[i]) {
      UnmarkedIsLast(allowed, before, steps[i], path);
    }
  }

  // ---- Which files a failure loses ----

  /** Whatever follows, no poll tries the file unless the watcher reports it again. */
  ghost predicate Lost(allowed: Allowed, s: State, path: string) {
    forall steps: seq<Step>, i: nat ::
      i < |steps| && Watch(path) !in steps ==> !Touches(Done(allowed, Run(allowed, s, steps[..i]), steps[i]), path)
  }

  lemma {:induction false} QuietKept(allowed: Allowed, s: State, steps: seq<Step>, path: string)
    requires path in s.known && path !in s.queue && Watch(path) !in steps
    ensures path in Run(allowed, s, steps).known && path !in Run(allowed, s, steps).queue
    decreases |steps|
  {
    if |steps| == 0 {
    } else {
      assert steps[|steps| - 1] in steps;
      QuietKept(allowed, s, steps[..|steps| - 1], path);
    }
  }

  lemma QuietUntouched(allowed: Allowed, s: State, steps: seq<Step>, i: nat, path: string)
    requires path in s.known && path !in s.queue && i < |steps| && Watch(path) !in steps
    ensures !Touches(Done(allowed, Run(allowed, s, steps[..i]), steps[i]), path)
  {
    QuietKept(allowed, s, steps[..i], path);
    if Touches(Done(allowed, Run(allowed, s, steps[..i]), steps[i]), path) {
      TouchedIsCandidate(allowed, Run(allowed, s, steps[..i]), steps[i], path);
    }
  }

  /** A file that is not known, or waits in the queue, can be tried by the very next poll. */
  lemma NextPollTries(allowed: Allowed, s: State, path: string)
    requires allowed(path) && (path !in s.known || path in s.queue)
    ensures !Lost(allowed, s, path)
  {
    var env := Env(path in s.queue, [path], {path}, {path});
    var step := Step.Poll(env, |Plan(allowed, s, env)|);
    var steps := [step];
    assert steps[..0] == [];
    CompletedTries(allowed, s, step, path);
    assert Touches(Done(allowed, Run(allowed, s, steps[..0]), steps[0]), path);
  }

  /**
   An allowed file is lost exactly when it is known and not waiting in the queue. So a path that was drained and then
   failed is picked up by a later comparison of the tree if it was never marked, and is lost, until the next change of
   the file, if an earlier version of it was.
   */
  lemma LostIff(allowed: Allowed, s: State, path: string)
    requires allowed(path)
    ensures Lost(allowed, s, path) <==> path in s.known && path !in s.queue
  {
    if path in s.known && path !in s.queue {
      forall steps: seq<Step>, i: nat | i < |steps| && Watch(path) !in steps
        ensures !Touches(Done(allowed, Run(allowed, s, steps[..i]), steps[i]), path)
      {
        QuietUntouched(allowed, s, steps, i, path);
      }
    } else {
      NextPollTries(allowed, s, path);
    }
  }

  /** While the watcher lives, known or not plays no part. */
  lemma DrainTries(allowed: Allowed, s: State, step: Step, path: string)
    requires Completed(allowed, s, step) && step.env.watching
    ensures Touches(Done(allowed, s, step), path) <==> path in s.queue && path in step.env.present && allowed(path)
    ensures Next(allowed, s, step).queue == []
  {
    CompletedTries(allowed, s, step, path);
  }
}
