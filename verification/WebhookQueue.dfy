/**
 * The delayed webhook queue as a step system. A step is what runs between two
 * suspension points: a timer tick, the landing of a Redis reply, the end of a job.
 * Adds, ticks and the steps of a running pass interleave freely.
 */
module WebhookQueue {
  /** The serialized job; every added job has its own identifier in it. */
  type Job = string

  const WEBHOOK_DELAY_MS: nat := 3000

  /** Where a pass of the queue is waiting. */
  datatype Stage =
    | Fetching                                            // for the due jobs
    | Running(jobs: seq<Job>, next: nat)                  // for job `next` to end
    | Removing(jobs: seq<Job>, next: nat, failed: bool)   // for its removal; in the catch branch when `failed`

  datatype Pass = Pass(now: nat, stage: Stage)

  datatype Dispatch = Dispatch(job: Job, score: nat, at: nat)

  datatype Queue = Queue(
    clock: nat,
    scores: map<Job, nat>,        // the sorted set
    adding: map<Job, nat>,        // scores read by calls whose zadd has not landed
    isProcessing: bool,
    passes: map<nat, Pass>,       // calls of processQueue past their entry check
    landed: map<Job, nat>,        // history: every job ever in the sorted set
    dispatched: seq<Dispatch>,    // history: every start of a job
    horizon: nat)                 // history: the due time of the last snapshot taken

  datatype Event =
    | Advance(to: nat)
    | Tick(pass: nat)
    | AddBegin(job: Job)
    | AddLand(job: Job)
    | AddFail(job: Job)
    | Fetched(pass: nat, jobs: seq<Job>)
    | FetchFail(pass: nat)
    | JobEnd(pass: nat, ok: bool)
    | Removed(pass: nat)
    | RemoveFail(pass: nat, applied: bool)   // an error reply, or a lost reply to a removal that was applied
    | Crash

  /** What the range query returns: the jobs due at `now`, each once, in order of score. */
  ghost predicate Range(scores: map<Job, nat>, now: nat, jobs: seq<Job>)
  {
    && (forall j :: j in jobs <==> j in scores && scores[j] <= now)
    && (forall a, b :: 0 <= a < b < |jobs| ==> jobs[a] != jobs[b] && scores[jobs[a]] <= scores[jobs[b]])
  }

  ghost predicate InStage(q: Queue, pass: nat, running: bool)
  {
    && pass in q.passes
    && (if running then q.passes[pass].stage.Running? else q.passes[pass].stage.Removing?)
    && q.passes[pass].stage.next < |q.passes[pass].stage.jobs|
    && (forall j :: j in q.passes[pass].stage.jobs ==> j in q.landed)
  }

  ghost predicate Enabled(q: Queue, e: Event)
  {
    match e
    case Advance(to) => q.clock <= to
    case Tick(pass) => pass !in q.passes
    case AddBegin(job) => job !in q.adding && job !in q.landed
    case AddLand(job) => job in q.adding
    case AddFail(job) => job in q.adding
    case Fetched(pass, jobs) =>
      && pass in q.passes && q.passes[pass].stage.Fetching?
      && Range(q.scores, q.passes[pass].now, jobs)
      && (forall j :: j in jobs ==> j in q.landed)
    case FetchFail(pass) => pass in q.passes && q.passes[pass].stage.Fetching?
    case JobEnd(pass, ok) => InStage(q, pass, true)
    case Removed(pass) => InStage(q, pass, false)
    case RemoveFail(pass, applied) => InStage(q, pass, false)
    case Crash => true
  }

  /** The finally block: the pass is over and the flag is down. */
  function Finish(q: Queue, pass: nat): Queue
  {
    q.(passes := q.passes - {pass}, isProcessing := false)
  }

  /** The loop reaches job `i` of the snapshot, or its end. */
  function Start(q: Queue, pass: nat, now: nat, jobs: seq<Job>, i: nat): Queue
    requires i < |jobs| ==> jobs[i] in q.landed
  {
    if i < |jobs|
    then q.(passes := q.passes[pass := Pass(now, Running(jobs, i))],
            dispatched := q.dispatched + [Dispatch(jobs[i], q.landed[jobs[i]], q.clock)])
    else Finish(q, pass)
  }

  ghost function Next(q: Queue, e: Event): Queue
    requires Enabled(q, e)
  {
    match e
    case Advance(to) => q.(clock := to)
    case Tick(pass) =>
      if q.isProcessing then q
      else q.(isProcessing := true, passes := q.passes[pass := Pass(q.clock, Fetching)])
    case AddBegin(job) => q.(adding := q.adding[job := q.clock + WEBHOOK_DELAY_MS])
    case AddLand(job) =>
      q.(scores := q.scores[job := q.adding[job]], landed := q.landed[job := q.adding[job]], adding := q.adding - {job})
    case AddFail(job) => q.(adding := q.adding - {job})
    case Fetched(pass, jobs) =>
      Start(q.(horizon := q.passes[pass].now), pass, q.passes[pass].now, jobs, 0)
    case FetchFail(pass) => Finish(q, pass)
    case JobEnd(pass, ok) =>
      var p := q.passes[pass];
      q.(passes := q.passes[pass := p.(stage := Removing(p.stage.jobs, p.stage.next, !ok))])
    case Removed(pass) =>
      var p := q.passes[pass];
      Start(q.(scores := q.scores - {p.stage.jobs[p.stage.next]}), pass, p.now, p.stage.jobs, p.stage.next + 1)
    case RemoveFail(pass, applied) =>
      // inside the try block the catch block tries again; inside the catch block the error leaves the loop
      var p := q.passes[pass];
      var left := if applied then q.(scores := q.scores - {p.stage.jobs[p.stage.next]}) else q;
      if !p.stage.failed then left.(passes := q.passes[pass := p.(stage := p.stage.(failed := true))])
      else Finish(left, pass)
    case Crash => q.(isProcessing := false, passes := map[])   // a zadd already sent may still land
  }

  /** Every event of the run is possible when it happens. */
  ghost predicate Possible(q: Queue, run: seq<Event>)
  {
    run == [] || (Possible(q, run[..|run| - 1]) && Enabled(After(q, run[..|run| - 1]), run[|run| - 1]))
  }

  ghost function After(q: Queue, run: seq<Event>): Queue
  {
    if run == [] then q else
      var before := After(q, run[..|run| - 1]);
      if Enabled(before, run[|run| - 1]) then Next(before, run[|run| - 1]) else before
  }

  function Fresh(clock: nat): Queue
  {
    Queue(clock, map[], map[], false, map[], map[], [], 0)
  }

  // ---- Every run ----

  predicate Current(p: Pass)
  {
    !p.stage.Fetching? && p.stage.next < |p.stage.jobs|
  }

  ghost predicate PassSafe(q: Queue, p: Pass)
  {
    && p.now <= q.clock
    && (!p.stage.Fetching? ==>
          && p.stage.next < |p.stage.jobs|
          && (forall j :: j in p.stage.jobs ==> j in q.landed && q.landed[j] <= p.now))
  }

  ghost predicate Safe(q: Queue)
  {
    && (forall a, b :: a in q.passes && b in q.passes ==> a == b)
    && (q.isProcessing <==> q.passes != map[])
    && (forall p :: p in q.passes ==> PassSafe(q, q.passes[p]))
    && (forall j :: j in q.scores ==> j in q.landed && q.landed[j] == q.scores[j])
    && (forall j :: j in q.adding ==> j !in q.landed)
    && (forall d :: d in q.dispatched ==> d.job in q.landed && d.score == q.landed[d.job] && d.score <= d.at <= q.clock)
  }

  lemma {:induction false} StepSafe(q: Queue, e: Event)
    requires Safe(q) && Enabled(q, e)
    ensures Safe(Next(q, e))
  {
    match e {
      case Advance(to) =>
      case Tick(pass) =>
      case AddBegin(job) =>
      case AddLand(job) =>
      case AddFail(job) =>
      case Fetched(pass, jobs) => StartSafe(q.(horizon := q.passes[pass].now), pass, q.passes[pass].now, jobs, 0);
      case FetchFail(pass) => FinishSafe(q, pass);
      case JobEnd(pass, ok) =>
      case Removed(pass) => RemovedSafe(q, pass);
      case RemoveFail(pass, applied) => RemoveFailSafe(q, pass, applied);
      case Crash =>
    }
  }

  /** A removed job leaves everything else as it was. */
  lemma {:induction false} FewerSafe(q: Queue, job: Job)
    requires Safe(q)
    ensures Safe(q.(scores := q.scores - {job}))
  {
    var left := q.(scores := q.scores - {job});
    forall p | p in left.passes ensures PassSafe(left, left.passes[p]) {
      assert PassSafe(q, q.passes[p]);
    }
  }

  lemma {:induction false} RemovedSafe(q: Queue, pass: nat)
    requires Safe(q) && Enabled(q, Removed(pass))
    ensures Safe(Next(q, Removed(pass)))
  {
    var p := q.passes[pass];
    assert PassSafe(q, p);
    FewerSafe(q, p.stage.jobs[p.stage.next]);
    StartSafe(q.(scores := q.scores - {p.stage.jobs[p.stage.next]}), pass, p.now, p.stage.jobs, p.stage.next + 1);
  }

  lemma {:induction false} RemoveFailSafe(q: Queue, pass: nat, applied: bool)
    requires Safe(q) && Enabled(q, RemoveFail(pass, applied))
    ensures Safe(Next(q, RemoveFail(pass, applied)))
  {
    var p := q.passes[pass];
    assert PassSafe(q, p);
    var left := if applied then q.(scores := q.scores - {p.stage.jobs[p.stage.next]}) else q;
    FewerSafe(q, p.stage.jobs[p.stage.next]);
    if p.stage.failed {
      FinishSafe(left, pass);
    }
  }

  lemma {:induction false} FinishSafe(q: Queue, pass: nat)
    requires Safe(q) && pass in q.passes
    ensures Safe(Finish(q, pass))
  {
    assert q.passes - {pass} == map[];
  }

  lemma {:induction false} StartSafe(q: Queue, pass: nat, now: nat, jobs: seq<Job>, i: nat)
    requires Safe(q) && pass in q.passes && now <= q.clock
    requires forall j :: j in jobs ==> j in q.landed && q.landed[j] <= now
    ensures Safe(Start(q, pass, now, jobs, i))
  {
    if i < |jobs| {
      assert jobs[i] in jobs;
    } else {
      FinishSafe(q, pass);
    }
  }

  /**
   * In every interleaving, with or without faults: at most one pass is past its entry check, the flag says
   * whether there is one, and no job was ever started before its score.
   */
  lemma {:induction false} OnePassAndNoEarlyStart(clock: nat, run: seq<Event>)
    ensures Safe(After(Fresh(clock), run))
  {
    if run != [] {
      OnePassAndNoEarlyStart(clock, run[..|run| - 1]);
      var before := After(Fresh(clock), run[..|run| - 1]);
      if Enabled(before, run[|run| - 1]) {
        StepSafe(before, run[|run| - 1]);
      }
    }
  }

  /** From the call that adds a job on, its score stays at least three seconds after that call. */
  ghost predicate Delayed(q: Queue, job: Job, called: nat)
  {
    && called <= q.clock
    && (job in q.adding ==> called + 3000 <= q.adding[job])
    && (job in q.landed ==> called + 3000 <= q.landed[job])
  }

  lemma {:induction false} StepDelayed(q: Queue, e: Event, job: Job, called: nat)
    requires Enabled(q, e) && Delayed(q, job, called)
    ensures Delayed(Next(q, e), job, called)
  {
  }

  lemma {:induction false} DelayedSince(q: Queue, run: seq<Event>, i: nat, job: Job)
    requires i < |run| && run[i] == AddBegin(job) && Enabled(After(q, run[..i]), run[i])
    ensures Delayed(After(q, run), job, After(q, run[..i]).clock)
  {
    var head, e := run[..|run| - 1], run[|run| - 1];
    if i < |head| {
      assert head[..i] == run[..i];
      DelayedSince(q, head, i, job);
      if Enabled(After(q, head), e) {
        StepDelayed(After(q, head), e, job, After(q, run[..i]).clock);
      }
    }
  }

  /** In every interleaving, with any faults: no job is started within three seconds of the call that adds it. */
  lemma {:induction false} NoStartWithinThreeSeconds(clock: nat, run: seq<Event>, i: nat, job: Job, d: Dispatch)
    requires i < |run| && run[i] == AddBegin(job) && Enabled(After(Fresh(clock), run[..i]), run[i])
    requires d in After(Fresh(clock), run).dispatched && d.job == job
    ensures After(Fresh(clock), run[..i]).clock + 3000 <= d.at
  {
    DelayedSince(Fresh(clock), run, i, job);
    OnePassAndNoEarlyStart(clock, run);
  }

  // ---- Runs without a crash or a failed removal ----

  predicate FaultFree(run: seq<Event>)
  {
    forall e :: e in run ==> !e.Crash? && !e.RemoveFail?
  }

  ghost predicate Started(dispatched: seq<Dispatch>, job: Job)
  {
    exists i :: 0 <= i < |dispatched| && dispatched[i].job == job
  }

  /** A snapshot partly worked off: what is behind was started and removed, what is ahead was neither. */
  ghost predicate PartlyDone(scores: map<Job, nat>, dispatched: seq<Dispatch>, jobs: seq<Job>, started: nat,
                             removed: nat)
  {
    && (forall a, b :: 0 <= a < b < |jobs| ==> jobs[a] != jobs[b])
    && (forall k :: 0 <= k < |jobs| ==> (Started(dispatched, jobs[k]) <==> k < started))
    && (forall k :: 0 <= k < |jobs| ==> (jobs[k] in scores <==> removed <= k))
  }

  ghost predicate PassOnce(scores: map<Job, nat>, dispatched: seq<Dispatch>, p: Pass)
  {
    !p.stage.Fetching? ==>
      p.stage.next < |p.stage.jobs| && PartlyDone(scores, dispatched, p.stage.jobs, p.stage.next + 1, p.stage.next)
  }

  /** The pass is waiting on this job, or on its removal. */
  ghost predicate InHand(passes: map<nat, Pass>, job: Job)
  {
    exists p :: p in passes && Current(passes[p]) && passes[p].stage.jobs[passes[p].stage.next] == job
  }

  ghost predicate NoRepeat(dispatched: seq<Dispatch>)
  {
    forall a, b :: 0 <= a < b < |dispatched| ==> dispatched[a].job != dispatched[b].job
  }

  /**
   * No job was started twice; a job that landed is waiting and not started, or in hand and started,
   * or gone and started.
   */
  ghost predicate Once(q: Queue)
  {
    && NoRepeat(q.dispatched)
    && (forall p :: p in q.passes ==> PassOnce(q.scores, q.dispatched, q.passes[p]))
    && (forall j :: j in q.landed && j !in q.scores ==> Started(q.dispatched, j))
    && (forall j :: j in q.scores && Started(q.dispatched, j) ==> InHand(q.passes, j))
  }

  lemma {:induction false} StartedGrows(dispatched: seq<Dispatch>, d: Dispatch, job: Job)
    ensures Started(dispatched + [d], job) <==> Started(dispatched, job) || job == d.job
  {
    var more := dispatched + [d];
    if Started(dispatched, job) {
      var i :| 0 <= i < |dispatched| && dispatched[i].job == job;
      assert more[i].job == job;
    }
    assert more[|dispatched|] == d;
  }

  lemma {:induction false} StartOnce(q: Queue, pass: nat, now: nat, jobs: seq<Job>, i: nat)
    requires Safe(q) && pass in q.passes && i <= |jobs| && NoRepeat(q.dispatched)
    requires forall j :: j in jobs ==> j in q.landed
    requires PartlyDone(q.scores, q.dispatched, jobs, i, i)
    requires forall j :: j in q.landed ==> (j !in q.scores <==> Started(q.dispatched, j))
    ensures Once(Start(q, pass, now, jobs, i))
  {
    if i < |jobs| {
      var d := Dispatch(jobs[i], q.landed[jobs[i]], q.clock);
      forall j ensures Started(q.dispatched + [d], j) <==> Started(q.dispatched, j) || j == jobs[i] {
        StartedGrows(q.dispatched, d, j);
      }
      var next := Start(q, pass, now, jobs, i);
      assert pass in next.passes && Current(next.passes[pass]);
      assert PassOnce(next.scores, next.dispatched, next.passes[pass]);
    }
  }

  lemma {:induction false} StepOnce(q: Queue, e: Event)
    requires Safe(q) && Once(q) && Enabled(q, e) && !e.Crash? && !e.RemoveFail?
    ensures Once(Next(q, e))
  {
    match e {
      case Advance(to) =>
      case Tick(pass) =>
      case AddBegin(job) =>
      case AddLand(job) => AddLandOnce(q, job);
      case AddFail(job) =>
      case Fetched(pass, jobs) => FetchedOnce(q, pass, jobs);
      case FetchFail(pass) =>
        assert forall j :: !InHand(q.passes, j);
      case JobEnd(pass, ok) => JobEndOnce(q, pass, ok);
      case Removed(pass) => RemovedOnce(q, pass);
    }
  }

  lemma {:induction false} FetchedOnce(q: Queue, pass: nat, jobs: seq<Job>)
    requires Safe(q) && Once(q) && Enabled(q, Fetched(pass, jobs))
    ensures Once(Next(q, Fetched(pass, jobs)))
  {
    assert forall j :: !InHand(q.passes, j);
    assert forall k :: 0 <= k < |jobs| ==> jobs[k] in jobs;
    StartOnce(q.(horizon := q.passes[pass].now), pass, q.passes[pass].now, jobs, 0);
  }

  lemma {:induction false} OnlyOneInHand(q: Queue, pass: nat)
    requires pass in q.passes && (forall p :: p in q.passes ==> p == pass) && Current(q.passes[pass])
    ensures forall j :: InHand(q.passes, j) ==> j == q.passes[pass].stage.jobs[q.passes[pass].stage.next]
  {
  }

  lemma {:induction false} FewerDone(scores: map<Job, nat>, dispatched: seq<Dispatch>, jobs: seq<Job>, i: nat)
    requires i < |jobs| && PartlyDone(scores, dispatched, jobs, i + 1, i)
    ensures PartlyDone(scores - {jobs[i]}, dispatched, jobs, i + 1, i + 1)
  {
  }

  /** With the removal of the job in hand, what is gone is again exactly what was started. */
  lemma {:induction false} GoneIsStarted(q: Queue, job: Job)
    requires Once(q) && Started(q.dispatched, job) && job in q.landed && (forall j :: InHand(q.passes, j) ==> j == job)
    ensures forall j :: j in q.landed ==> (j !in q.scores - {job} <==> Started(q.dispatched, j))
  {
  }

  lemma {:induction false} LeftOnce(q: Queue, pass: nat, jobs: seq<Job>, i: nat)
    requires Safe(q) && Once(q) && pass in q.passes && PassOnce(q.scores, q.dispatched, q.passes[pass]) && i < |jobs|
    requires !q.passes[pass].stage.Fetching? && q.passes[pass].stage.jobs == jobs && q.passes[pass].stage.next == i
    requires forall j :: j in jobs ==> j in q.landed
    ensures var left := q.(scores := q.scores - {jobs[i]});
      && Safe(left)
      && PartlyDone(left.scores, left.dispatched, jobs, i + 1, i + 1)
      && forall j :: j in left.landed ==> (j !in left.scores <==> Started(left.dispatched, j))
  {
    assert jobs[i] in jobs;
    OnlyOneInHand(q, pass);
    GoneIsStarted(q, jobs[i]);
    FewerSafe(q, jobs[i]);
    FewerDone(q.scores, q.dispatched, jobs, i);
  }

  lemma {:induction false} RemovedOnce(q: Queue, pass: nat)
    requires Safe(q) && Once(q) && Enabled(q, Removed(pass))
    ensures Once(Next(q, Removed(pass)))
  {
    var now, jobs, i := q.passes[pass].now, q.passes[pass].stage.jobs, q.passes[pass].stage.next;
    LeftOnce(q, pass, jobs, i);
    StartOnce(q.(scores := q.scores - {jobs[i]}), pass, now, jobs, i + 1);
  }

  lemma {:induction false} AddLandOnce(q: Queue, job: Job)
    requires Safe(q) && Once(q) && job in q.adding
    ensures Once(Next(q, AddLand(job)))
  {
    assert !Started(q.dispatched, job);
    var next := Next(q, AddLand(job));
    forall p | p in next.passes ensures PassOnce(next.scores, next.dispatched, next.passes[p]) {
      assert PassSafe(q, q.passes[p]) && PassOnce(q.scores, q.dispatched, q.passes[p]);
    }
  }

  lemma {:induction false} JobEndOnce(q: Queue, pass: nat, ok: bool)
    requires Safe(q) && Once(q) && Enabled(q, JobEnd(pass, ok))
    ensures Once(Next(q, JobEnd(pass, ok)))
  {
    var next := Next(q, JobEnd(pass, ok));
    forall j | InHand(q.passes, j) ensures InHand(next.passes, j) {
      assert Current(next.passes[pass]);
    }
    assert PassOnce(q.scores, q.dispatched, q.passes[pass]);
  }

  /**
   * In every interleaving without a crash or a failed removal, every job is started at most once, and gone only if
   * it was.
   */
  lemma {:induction false} EachJobOnce(clock: nat, run: seq<Event>)
    requires FaultFree(run)
    ensures Once(After(Fresh(clock), run))
  {
    if run != [] {
      var head := run[..|run| - 1];
      EachJobOnce(clock, head);
      OnePassAndNoEarlyStart(clock, head);
      var before := After(Fresh(clock), head);
      if Enabled(before, run[|run| - 1]) {
        StepOnce(before, run[|run| - 1]);
      }
    }
  }

  // ---- Order, when every add lands within its delay ----

  /** Every zadd of the run takes effect before the score it carries. */
  ghost predicate Punctual(q: Queue, run: seq<Event>)
  {
    run == [] ||
    var before := After(q, run[..|run| - 1]);
    var e := run[|run| - 1];
    && Punctual(q, run[..|run| - 1])
    && (e.AddLand? && e.job in before.adding ==> before.clock < before.adding[e.job])
  }

  ghost predicate Ahead(passes: map<nat, Pass>, job: Job)
  {
    exists p, k ::
      p in passes && !passes[p].stage.Fetching? && passes[p].stage.next <= k < |passes[p].stage.jobs|
      && passes[p].stage.jobs[k] == job
  }

  ghost predicate PassInOrder(q: Queue, p: Pass)
  {
    && (p.stage.Fetching? ==> q.horizon <= p.now)
    && (!p.stage.Fetching? ==>
          && p.stage.next < |p.stage.jobs|
          && q.horizon == p.now
          && (forall j :: j in p.stage.jobs ==> j in q.landed)
          && (forall a, b :: 0 <= a < b < |p.stage.jobs| ==> q.landed[p.stage.jobs[a]] <= q.landed[p.stage.jobs[b]])
          && (forall d :: d in q.dispatched ==> d.score <= q.landed[p.stage.jobs[p.stage.next]]))
  }

  ghost predicate InOrder(q: Queue)
  {
    && q.horizon <= q.clock
    && (forall a, b :: 0 <= a < b < |q.dispatched| ==> q.dispatched[a].score <= q.dispatched[b].score)
    && (forall d :: d in q.dispatched ==> d.score <= q.horizon)
    && (forall p :: p in q.passes ==> PassInOrder(q, q.passes[p]))
    && (forall j :: j in q.scores && q.scores[j] <= q.horizon ==> Ahead(q.passes, j))
  }

  /** The loop of the only pass is at job `i`, nothing due waits behind it and nothing started is due later. */
  ghost predicate AtJob(q: Queue, pass: nat, jobs: seq<Job>, i: nat)
  {
    && pass in q.passes && (forall p :: p in q.passes ==> p == pass)
    && i <= |jobs| && q.horizon <= q.clock
    && (forall a, b :: 0 <= a < b < |q.dispatched| ==> q.dispatched[a].score <= q.dispatched[b].score)
    && (forall d :: d in q.dispatched ==> d.score <= q.horizon)
    && (forall j :: j in jobs ==> j in q.landed && q.landed[j] <= q.horizon)
    && (forall a, b :: 0 <= a < b < |jobs| ==> q.landed[jobs[a]] <= q.landed[jobs[b]])
    && (i < |jobs| ==> forall d :: d in q.dispatched ==> d.score <= q.landed[jobs[i]])
    && (forall j :: j in q.scores && q.scores[j] <= q.horizon ==> exists k :: i <= k < |jobs| && jobs[k] == j)
  }

  lemma {:induction false} StartInOrder(q: Queue, pass: nat, jobs: seq<Job>, i: nat)
    requires AtJob(q, pass, jobs, i)
    ensures InOrder(Start(q, pass, q.horizon, jobs, i))
  {
    var next := Start(q, pass, q.horizon, jobs, i);
    if i < |jobs| {
      assert jobs[i] in jobs;
      forall j | j in next.scores && next.scores[j] <= next.horizon ensures Ahead(next.passes, j) {
        var k :| i <= k < |jobs| && jobs[k] == j;
        assert pass in next.passes && next.passes[pass].stage.jobs[k] == j;
      }
    }
  }

  lemma {:induction false} StepInOrder(q: Queue, e: Event)
    requires Safe(q) && InOrder(q) && Enabled(q, e) && !e.Crash? && !e.RemoveFail?
    requires e.AddLand? ==> q.clock < q.adding[e.job]
    ensures InOrder(Next(q, e))
  {
    match e {
      case Advance(to) =>
      case Tick(pass) =>
      case AddBegin(job) =>
      case AddLand(job) => AddLandInOrder(q, job);
      case AddFail(job) =>
      case Fetched(pass, jobs) => FetchedInOrder(q, pass, jobs);
      case FetchFail(pass) =>
        assert forall j :: !Ahead(q.passes, j);
      case JobEnd(pass, ok) => JobEndInOrder(q, pass, ok);
      case Removed(pass) => RemovedInOrder(q, pass);
    }
  }

  lemma {:induction false} AddLandInOrder(q: Queue, job: Job)
    requires Safe(q) && InOrder(q) && job in q.adding && q.clock < q.adding[job]
    ensures InOrder(Next(q, AddLand(job)))
  {
    var next := Next(q, AddLand(job));
    forall p | p in next.passes ensures PassInOrder(next, next.passes[p]) {
      assert PassSafe(q, q.passes[p]) && PassInOrder(q, q.passes[p]);
    }
  }

  lemma {:induction false} FetchedInOrder(q: Queue, pass: nat, jobs: seq<Job>)
    requires Safe(q) && InOrder(q) && Enabled(q, Fetched(pass, jobs))
    ensures InOrder(Next(q, Fetched(pass, jobs)))
  {
    assert PassInOrder(q, q.passes[pass]) && PassSafe(q, q.passes[pass]);
    assert forall j :: !Ahead(q.passes, j);
    var next := q.(horizon := q.passes[pass].now);
    if 0 < |jobs| {
      assert jobs[0] in jobs;
    }
    forall j | j in next.scores && next.scores[j] <= next.horizon
      ensures exists k :: 0 <= k < |jobs| && jobs[k] == j
    {
      assert j in jobs;
    }
    forall a, b | 0 <= a < b < |jobs| ensures next.landed[jobs[a]] <= next.landed[jobs[b]] {
      assert jobs[a] in jobs && jobs[b] in jobs;
    }
    StartInOrder(next, pass, jobs, 0);
  }

  lemma {:induction false} JobEndInOrder(q: Queue, pass: nat, ok: bool)
    requires Safe(q) && InOrder(q) && Enabled(q, JobEnd(pass, ok))
    ensures InOrder(Next(q, JobEnd(pass, ok)))
  {
    var next := Next(q, JobEnd(pass, ok));
    forall j | Ahead(q.passes, j) ensures Ahead(next.passes, j) {
      var p, k :| p in q.passes && !q.passes[p].stage.Fetching?
          && q.passes[p].stage.next <= k < |q.passes[p].stage.jobs|
        && q.passes[p].stage.jobs[k] == j;
      assert next.passes[pass].stage.jobs[k] == j;
    }
    assert PassInOrder(q, q.passes[pass]);
  }

  lemma {:induction false} RemovedInOrder(q: Queue, pass: nat)
    requires Safe(q) && InOrder(q) && Enabled(q, Removed(pass))
    ensures InOrder(Next(q, Removed(pass)))
  {
    var p := q.passes[pass];
    RemovedAtJob(q, pass, p.stage.jobs, p.stage.next);
    StartInOrder(q.(scores := q.scores - {p.stage.jobs[p.stage.next]}), pass, p.stage.jobs, p.stage.next + 1);
  }

  lemma {:induction false} RemovedAtJob(q: Queue, pass: nat, jobs: seq<Job>, i: nat)
    requires Safe(q) && InOrder(q) && pass in q.passes && i < |jobs|
    requires !q.passes[pass].stage.Fetching? && q.passes[pass].stage.jobs == jobs && q.passes[pass].stage.next == i
    ensures q.horizon == q.passes[pass].now
    ensures AtJob(q.(scores := q.scores - {jobs[i]}), pass, jobs, i + 1)
  {
    assert PassInOrder(q, q.passes[pass]) && PassSafe(q, q.passes[pass]);
    forall j | j in q.scores && q.scores[j] <= q.horizon && j != jobs[i]
      ensures exists k :: i + 1 <= k < |jobs| && jobs[k] == j
    {
      AheadInPass(q, pass, j);
    }
    if i + 1 < |jobs| {
      assert q.landed[jobs[i]] <= q.landed[jobs[i + 1]];
    }
  }

  lemma {:induction false} AheadInPass(q: Queue, pass: nat, job: Job)
    requires Safe(q) && pass in q.passes && Ahead(q.passes, job)
    ensures var stage := q.passes[pass].stage;
      !stage.Fetching? && exists k :: stage.next <= k < |stage.jobs| && stage.jobs[k] == job
  {
  }

  /** Dispatch order is sorted by score across passes, and nothing due at the last snapshot waits outside it. */
  lemma {:induction false} DispatchesInOrder(clock: nat, run: seq<Event>)
    requires FaultFree(run) && Punctual(Fresh(clock), run)
    ensures InOrder(After(Fresh(clock), run))
  {
    if run != [] {
      var head := run[..|run| - 1];
      DispatchesInOrder(clock, head);
      EachJobOnce(clock, head);
      OnePassAndNoEarlyStart(clock, head);
      var before := After(Fresh(clock), head);
      if Enabled(before, run[|run| - 1]) {
        StepInOrder(before, run[|run| - 1]);
      }
    }
  }

  /**
   * Between passes, the jobs gone from the queue are exactly those whose score had come at the last snapshot;
   * these, and no others, were started, each once.
   */
  lemma {:induction false} DueJobsAreDoneBetweenPasses(clock: nat, run: seq<Event>, job: Job)
    requires FaultFree(run) && Punctual(Fresh(clock), run)
    requires !After(Fresh(clock), run).isProcessing && job in After(Fresh(clock), run).landed
    ensures var q := After(Fresh(clock), run);
      && (q.landed[job] <= q.horizon <==> job !in q.scores)
      && (job !in q.scores <==> exists i :: 0 <= i < |q.dispatched| && q.dispatched[i].job == job)
      && (forall a, b :: (0 <= a < b < |q.dispatched| && q.dispatched[a].job == job) ==> q.dispatched[b].job != job)
  {
    OnePassAndNoEarlyStart(clock, run);
    EachJobOnce(clock, run);
    DispatchesInOrder(clock, run);
    var q := After(Fresh(clock), run);
    assert !Ahead(q.passes, job) && !InHand(q.passes, job);
    if job !in q.scores {
      assert Started(q.dispatched, job);
    }
  }

  // ---- The condition is needed ----

  /** The run may be followed by `e`, which leads to `next`. */
  lemma {:induction false} OneMore(q: Queue, run: seq<Event>, longer: seq<Event>, e: Event, next: Queue)
    requires Possible(q, run) && Enabled(After(q, run), e) && Next(After(q, run), e) == next && longer == run + [e]
    ensures Possible(q, longer) && After(q, longer) == next
  {
    assert longer[..|longer| - 1] == run && longer[|longer| - 1] == e;
  }

  /** The adds of "a" and "b": "a" is scored first, but only "b" lands before both are due. */
  function LateAdd(): seq<Event>
  {
    [AddBegin("a"), Advance(1), AddBegin("b"), AddLand("b"), Advance(3001)]
  }

  lemma {:induction false} LateAddRuns()
    ensures Possible(Fresh(0), LateAdd())
    ensures After(Fresh(0), LateAdd()) == Queue(3001, map["b" := 3001], map["a" := 3000], false, map[],
        map["b" := 3001], [], 0)
  {
    var q, run := Fresh(0), LateAdd();
    OneMore(q, [], run[..1], run[0], q.(adding := map["a" := 3000]));
    OneMore(q, run[..1], run[..2], run[1], q.(adding := map["a" := 3000], clock := 1));
    OneMore(q, run[..2], run[..3], run[2], q.(adding := map["a" := 3000, "b" := 3001], clock := 1));
    var landed := q.(adding := map["a" := 3000], clock := 1, scores := map["b" := 3001], landed := map["b" := 3001]);
    OneMore(q, run[..3], run[..4], run[3], landed);
    OneMore(q, run[..4], run, run[4], landed.(clock := 3001));
  }

  /** A pass over a single due job, without faults. */
  function OneJobPass(pass: nat, job: Job): seq<Event>
  {
    [Tick(pass), Fetched(pass, [job]), JobEnd(pass, true), Removed(pass)]
  }

  ghost predicate OneJobDue(q: Queue, job: Job)
  {
    !q.isProcessing && q.passes == map[] && q.scores.Keys == {job} && job in q.landed && q.scores[job] <= q.clock
  }

  function OneJobDone(q: Queue, job: Job): Queue
    requires job in q.landed
  {
    q.(scores := map[], horizon := q.clock, dispatched := q.dispatched + [Dispatch(job, q.landed[job], q.clock)])
  }

  lemma {:induction false} OneJobPassSteps(q: Queue, pass: nat, job: Job)
    requires OneJobDue(q, job)
    ensures Enabled(q, Tick(pass))
    ensures var q1 := Next(q, Tick(pass));
      Enabled(q1, Fetched(pass, [job])) &&
      var q2 := Next(q1, Fetched(pass, [job]));
      Enabled(q2, JobEnd(pass, true)) &&
      var q3 := Next(q2, JobEnd(pass, true));
      Enabled(q3, Removed(pass)) && Next(q3, Removed(pass)) == OneJobDone(q, job)
  {
    assert [job][0] == job;
    assert q.scores - {job} == map[];
    assert map[pass := Pass(q.clock, Removing([job], 0, false))] - {pass} == map[];
  }

  lemma {:induction false} OneJobPassRuns(q: Queue, run: seq<Event>, pass: nat, job: Job)
    requires Possible(q, run) && OneJobDue(After(q, run), job)
    ensures Possible(q, run + OneJobPass(pass, job))
    ensures After(q, run + OneJobPass(pass, job)) == OneJobDone(After(q, run), job)
  {
    OneJobPassSteps(After(q, run), pass, job);
    var q1 := Next(After(q, run), Tick(pass));
    OneMore(q, run, run + [Tick(pass)], Tick(pass), q1);
    ThreeMore(q, run + [Tick(pass)], Fetched(pass, [job]), JobEnd(pass, true), Removed(pass));
    assert run + OneJobPass(pass, job)
           == run + [Tick(pass)] + [Fetched(pass, [job]), JobEnd(pass, true), Removed(pass)];
  }

  lemma {:induction false} ThreeMore(q: Queue, run: seq<Event>, a: Event, b: Event, c: Event)
    requires Possible(q, run) && Enabled(After(q, run), a)
    requires Enabled(Next(After(q, run), a), b) && Enabled(Next(Next(After(q, run), a), b), c)
    ensures Possible(q, run + [a, b, c])
    ensures After(q, run + [a, b, c]) == Next(Next(Next(After(q, run), a), b), c)
  {
    var q1 := Next(After(q, run), a);
    OneMore(q, run, run + [a], a, q1);
    OneMore(q, run + [a], run + [a, b], b, Next(q1, b));
    OneMore(q, run + [a, b], run + [a, b, c], c, Next(Next(q1, b), c));
  }

  /** Without punctual adds the order is lost: a zadd delayed past its own score is started after a later one. */
  lemma {:induction false} LateAddBreaksOrder()
    ensures var run := LateAdd() + OneJobPass(0, "b") + [AddLand("a")] + OneJobPass(1, "a");
      && FaultFree(run) && Possible(Fresh(0), run)
      && After(Fresh(0), run).dispatched == [Dispatch("b", 3001, 3001), Dispatch("a", 3000, 3001)]
  {
    LateAddRuns();
    var q, run := Fresh(0), LateAdd();
    OneJobPassRuns(q, run, 0, "b");
    var first := run + OneJobPass(0, "b");
    var late := After(q, first);
    var landed := late.(scores := map["a" := 3000], landed := late.landed["a" := 3000], adding := map[]);
    OneMore(q, first, first + [AddLand("a")], AddLand("a"), landed);
    OneJobPassRuns(q, first + [AddLand("a")], 1, "a");
  }
}
