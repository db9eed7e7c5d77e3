/** When exactly the webhook queue starts its jobs in the order of their scores. */
module WebhookOrder {
  import opened WebhookQueue

  /** Already started, or in the snapshot that a pass is working off. */
  ghost predicate Taken(q: Queue, job: Job)
  {
    Started(q.dispatched, job) || Ahead(q.passes, job)
  }

  /** The zadd takes effect when a job with a later score is already taken. */
  ghost predicate Overtaken(q: Queue, job: Job)
    requires job in q.adding
  {
    exists i :: i in q.landed && Taken(q, i) && q.adding[job] < q.landed[i]
  }

  /** The jobs of the run that were overtaken when they landed. */
  ghost function Late(q: Queue, run: seq<Event>): set<Job>
  {
    if run == [] then {} else
      var before, e := After(q, run[..|run| - 1]), run[|run| - 1];
      Late(q, run[..|run| - 1])
      + if e.AddLand? && e.job in before.adding && Overtaken(before, e.job) then {e.job} else {}
  }

  predicate Sorted(dispatched: seq<Dispatch>)
  {
    forall a, b :: 0 <= a < b < |dispatched| ==> dispatched[a].score <= dispatched[b].score
  }

  /** Job `i` was started, and `j` was not started before it. */
  ghost predicate Comes(dispatched: seq<Dispatch>, i: Job, j: Job)
  {
    exists a :: 0 <= a < |dispatched| && dispatched[a].job == i
      && forall b :: 0 <= b < |dispatched| && dispatched[b].job == j ==> a < b
  }

  /** A job with a later score comes before this one, or will. */
  ghost predicate Preceded(q: Queue, job: Job)
  {
    job in q.landed && exists i :: i in q.landed && q.landed[job] < q.landed[i] && Leads(q, i, job)
  }

  ghost predicate Leads(q: Queue, i: Job, job: Job)
  {
    Comes(q.dispatched, i, job) || (Ahead(q.passes, i) && !Taken(q, job))
  }

  /** Only late jobs are started after a job with a later score. */
  ghost predicate LateOnly(dispatched: seq<Dispatch>, late: set<Job>)
  {
    forall a, b :: 0 <= a < b < |dispatched| && dispatched[b].score < dispatched[a].score ==> dispatched[b].job in late
  }

  /** A waiting job that was not late is due no earlier than what was started, and than what is ahead of it. */
  ghost predicate WaitsInOrder(q: Queue, late: set<Job>, job: Job)
  {
    job in q.scores && job !in late ==>
      && (!Started(q.dispatched, job) ==> forall d :: d in q.dispatched ==> d.score <= q.scores[job])
      && (!Ahead(q.passes, job) ==> forall i :: i in q.landed && Ahead(q.passes, i) ==> q.landed[i] <= q.scores[job])
  }

  ghost predicate SnapshotSorted(q: Queue, p: Pass)
  {
    !p.stage.Fetching? ==>
      && (forall j :: j in p.stage.jobs ==> j in q.landed)
      && (forall a, b :: 0 <= a < b < |p.stage.jobs| ==> q.landed[p.stage.jobs[a]] <= q.landed[p.stage.jobs[b]])
  }

  ghost predicate Placed(q: Queue, late: set<Job>)
  {
    && LateOnly(q.dispatched, late)
    && (forall j :: WaitsInOrder(q, late, j))
    && (forall p :: p in q.passes ==> SnapshotSorted(q, q.passes[p]))
    && (forall j :: j in late ==> Preceded(q, j))
  }

  lemma {:induction false} ComesStill(dispatched: seq<Dispatch>, d: Dispatch, i: Job, j: Job)
    requires Comes(dispatched, i, j)
    ensures Comes(dispatched + [d], i, j)
  {
    var a :| 0 <= a < |dispatched| && dispatched[a].job == i
      && forall b :: 0 <= b < |dispatched| && dispatched[b].job == j ==> a < b;
    assert (dispatched + [d])[a].job == i;
  }

  /** What started, and had no such job before it, leads. */
  lemma {:induction false} StartedComes(dispatched: seq<Dispatch>, i: Job, j: Job)
    requires Started(dispatched, i) && !Started(dispatched, j)
    ensures Comes(dispatched, i, j)
  {
    var a :| 0 <= a < |dispatched| && dispatched[a].job == i;
    assert forall b :: 0 <= b < |dispatched| ==> dispatched[b].job != j;
  }

  // ---- The loop at a job ----

  ghost predicate Later(jobs: seq<Job>, i: nat, job: Job)
  {
    exists k :: i <= k < |jobs| && jobs[k] == job
  }

  /** The loop of the only pass is at job `i` of its sorted snapshot; what is behind was started. */
  ghost predicate AtPlace(q: Queue, late: set<Job>, pass: nat, jobs: seq<Job>, i: nat)
  {
    && pass in q.passes && (forall p :: p in q.passes ==> p == pass)
    && i <= |jobs| && LateOnly(q.dispatched, late)
    && (forall j :: j in jobs ==> j in q.landed)
    && (forall a, b :: 0 <= a < b < |jobs| ==> q.landed[jobs[a]] <= q.landed[jobs[b]])
    && (i < |jobs| ==> jobs[i] in q.scores && !Started(q.dispatched, jobs[i]))
    && (forall j :: j in q.scores && j !in late ==> WaitsAt(q, jobs, i, j))
    && (forall j :: j in late ==> j in q.landed && LedAt(q, jobs, i, j))
  }

  ghost predicate WaitsAt(q: Queue, jobs: seq<Job>, i: nat, job: Job)
    requires job in q.scores && forall j :: j in jobs ==> j in q.landed
  {
    && (!Started(q.dispatched, job) ==> forall d :: d in q.dispatched ==> d.score <= q.scores[job])
    && (!Later(jobs, i, job) ==> forall k :: i <= k < |jobs| ==> q.landed[jobs[k]] <= q.scores[job])
  }

  ghost predicate LedAt(q: Queue, jobs: seq<Job>, i: nat, job: Job)
    requires job in q.landed
  {
    exists l :: l in q.landed && q.landed[job] < q.landed[l]
      && (Comes(q.dispatched, l, job)
          || (Later(jobs, i, l) && !Started(q.dispatched, job) && !Later(jobs, i, job)))
  }

  lemma {:induction false} AheadIsLater(q: Queue, pass: nat, now: nat, jobs: seq<Job>, i: nat, job: Job)
    requires (forall p :: p in q.passes ==> p == pass) && i < |jobs|
    ensures Ahead(q.passes[pass := Pass(now, Running(jobs, i))], job) <==> Later(jobs, i, job)
  {
    var passes := q.passes[pass := Pass(now, Running(jobs, i))];
    if Later(jobs, i, job) {
      var k :| i <= k < |jobs| && jobs[k] == job;
      assert pass in passes && passes[pass].stage.jobs[k] == job;
    }
  }

  lemma {:induction false} StartPlaced(q: Queue, late: set<Job>, pass: nat, now: nat, jobs: seq<Job>, i: nat)
    requires Safe(q) && AtPlace(q, late, pass, jobs, i)
    ensures i < |jobs| ==> jobs[i] in q.landed
    ensures Placed(Start(q, pass, now, jobs, i), late)
  {
    if i < |jobs| {
      assert jobs[i] in jobs;
      StartedPlaced(q, late, pass, now, jobs, i);
    } else {
      FinishedPlaced(q, late, pass, jobs, i);
    }
  }

  lemma {:induction false} FinishedPlaced(q: Queue, late: set<Job>, pass: nat, jobs: seq<Job>, i: nat)
    requires Safe(q) && AtPlace(q, late, pass, jobs, i) && i == |jobs|
    ensures Placed(Finish(q, pass), late)
  {
    var next := Finish(q, pass);
    assert next.passes == map[];
    assert forall j :: !Ahead(next.passes, j);
    forall j | j in late ensures Preceded(next, j) {
      var l :| l in q.landed && q.landed[j] < q.landed[l] && Comes(q.dispatched, l, j);
      assert Leads(next, l, j);
    }
  }

  lemma {:induction false} StartedPlaced(q: Queue, late: set<Job>, pass: nat, now: nat, jobs: seq<Job>, i: nat)
    requires Safe(q) && AtPlace(q, late, pass, jobs, i) && i < |jobs| && jobs[i] in q.landed
    ensures Placed(Start(q, pass, now, jobs, i), late)
  {
    var d := Dispatch(jobs[i], q.landed[jobs[i]], q.clock);
    var next := Start(q, pass, now, jobs, i);
    forall j ensures Ahead(next.passes, j) <==> Later(jobs, i, j) {
      AheadIsLater(q, pass, now, jobs, i, j);
    }
    StartedLateOnly(q, late, pass, jobs, i);
    forall j ensures WaitsInOrder(next, late, j) {
      StartedWaits(q, late, pass, now, jobs, i, j);
    }
    forall j | j in late ensures Preceded(next, j) {
      StartedGrows(q.dispatched, d, j);
      StartedLed(q, late, pass, now, jobs, i, j);
    }
  }

  lemma {:induction false} StartedLateOnly(q: Queue, late: set<Job>, pass: nat, jobs: seq<Job>, i: nat)
    requires Safe(q) && AtPlace(q, late, pass, jobs, i) && i < |jobs| && jobs[i] in q.landed
    ensures LateOnly(q.dispatched + [Dispatch(jobs[i], q.landed[jobs[i]], q.clock)], late)
  {
    assert q.scores[jobs[i]] == q.landed[jobs[i]];
  }

  lemma {:induction false} StartedWaits(q: Queue, late: set<Job>, pass: nat, now: nat, jobs: seq<Job>, i: nat, job: Job)
    requires i < |jobs| && (forall p :: p in q.passes ==> p == pass) && (forall j :: j in jobs ==> j in q.landed)
    requires job in q.scores && job !in late ==>
      && WaitsAt(q, jobs, i, job) && job in q.landed && q.scores[job] == q.landed[job]
    requires forall a, b :: 0 <= a < b < |jobs| ==> q.landed[jobs[a]] <= q.landed[jobs[b]]
    ensures jobs[i] in q.landed && WaitsInOrder(Start(q, pass, now, jobs, i), late, job)
  {
    assert jobs[i] in jobs;
    if job in q.scores && job !in late {
      StartedGrows(q.dispatched, Dispatch(jobs[i], q.landed[jobs[i]], q.clock), job);
      AheadIsLater(q, pass, now, jobs, i, job);
      if Later(jobs, i, job) {
        var k :| i <= k < |jobs| && jobs[k] == job;
        assert q.landed[jobs[i]] <= q.landed[jobs[k]];
      } else {
        WaitsBehind(q, pass, now, jobs, i, job);
      }
    }
  }

  lemma {:induction false} WaitsBehind(q: Queue, pass: nat, now: nat, jobs: seq<Job>, i: nat, job: Job)
    requires i < |jobs| && (forall p :: p in q.passes ==> p == pass) && (forall j :: j in jobs ==> j in q.landed)
    requires job in q.scores && !Later(jobs, i, job) && WaitsAt(q, jobs, i, job) && jobs[i] in q.landed
    ensures forall l :: l in q.landed && Ahead(Start(q, pass, now, jobs, i).passes, l) ==> q.landed[l] <= q.scores[job]
  {
    forall l | l in q.landed && Ahead(Start(q, pass, now, jobs, i).passes, l) ensures q.landed[l] <= q.scores[job] {
      AheadIsLater(q, pass, now, jobs, i, l);
      var k :| i <= k < |jobs| && jobs[k] == l;
    }
  }

  lemma {:induction false} StartedLed(q: Queue, late: set<Job>, pass: nat, now: nat, jobs: seq<Job>, i: nat, job: Job)
    requires Safe(q) && AtPlace(q, late, pass, jobs, i) && i < |jobs| && jobs[i] in q.landed && job in late
    requires var next := Start(q, pass, now, jobs, i);
      && (forall j :: Ahead(next.passes, j) <==> Later(jobs, i, j))
      && (Started(next.dispatched, job) <==> Started(q.dispatched, job) || job == jobs[i])
    ensures Preceded(Start(q, pass, now, jobs, i), job)
  {
    var d := Dispatch(jobs[i], q.landed[jobs[i]], q.clock);
    var next := Start(q, pass, now, jobs, i);
    var l :| l in q.landed && q.landed[job] < q.landed[l]
      && (Comes(q.dispatched, l, job)
          || (Later(jobs, i, l) && !Started(q.dispatched, job) && !Later(jobs, i, job)));
    if Comes(q.dispatched, l, job) {
      ComesStill(q.dispatched, d, l, job);
    } else {
      assert job != jobs[i];
    }
    assert Leads(next, l, job);
  }

  // ---- Every step ----

  /** A step that starts nothing and moves no pass keeps everything in its place. */
  lemma {:induction false} QuietPlaced(q: Queue, next: Queue, late: set<Job>)
    requires Placed(q, late)
    requires next.scores == q.scores && next.landed == q.landed && next.dispatched == q.dispatched
    requires forall j :: Ahead(next.passes, j) <==> Ahead(q.passes, j)
    requires forall p :: p in next.passes ==> SnapshotSorted(q, next.passes[p])
    ensures Placed(next, late)
  {
    forall j ensures WaitsInOrder(next, late, j) {
      assert WaitsInOrder(q, late, j);
    }
    forall j | j in late ensures Preceded(next, j) {
      assert Preceded(q, j);
      var i :| i in q.landed && q.landed[j] < q.landed[i] && Leads(q, i, j);
      assert Leads(next, i, j);
    }
  }

  lemma {:induction false} JobEndPlaced(q: Queue, late: set<Job>, pass: nat, ok: bool)
    requires Safe(q) && Placed(q, late) && Enabled(q, JobEnd(pass, ok))
    ensures Placed(Next(q, JobEnd(pass, ok)), late)
  {
    var next := Next(q, JobEnd(pass, ok));
    var was, now := q.passes[pass].stage, next.passes[pass].stage;
    assert was.jobs == now.jobs && was.next == now.next;
    forall j ensures Ahead(next.passes, j) <==> Ahead(q.passes, j) {
      OnlyPass(q, pass, j);
      OnlyPass(next, pass, j);
    }
    assert SnapshotSorted(q, q.passes[pass]);
    QuietPlaced(q, next, late);
  }

  /** What is ahead is in the snapshot of the only pass. */
  lemma {:induction false} OnlyPass(q: Queue, pass: nat, job: Job)
    requires pass in q.passes && (forall p :: p in q.passes ==> p == pass) && !q.passes[pass].stage.Fetching?
    ensures Ahead(q.passes, job) <==> Later(q.passes[pass].stage.jobs, q.passes[pass].stage.next, job)
  {
    var stage := q.passes[pass].stage;
    if Later(stage.jobs, stage.next, job) {
      var k :| stage.next <= k < |stage.jobs| && stage.jobs[k] == job;
      assert q.passes[pass].stage.jobs[k] == job;
    }
  }

  lemma {:induction false} AddLandPlaced(q: Queue, late: set<Job>, job: Job)
    requires Safe(q) && Once(q) && Placed(q, late) && job in q.adding
    ensures Placed(Next(q, AddLand(job)), late + if Overtaken(q, job) then {job} else {})
  {
    var next := Next(q, AddLand(job));
    var more := late + if Overtaken(q, job) then {job} else {};
    NotTaken(q, job);
    forall j ensures WaitsInOrder(next, more, j) {
      assert WaitsInOrder(q, late, j);
      if j == job && job !in more {
        LandsInOrder(q, job);
      }
    }
    forall p | p in next.passes ensures SnapshotSorted(next, next.passes[p]) {
      assert SnapshotSorted(q, q.passes[p]);
    }
    forall j | j in more ensures Preceded(next, j) {
      if j in late {
        PrecededStill(q, job, j);
      } else {
        LandsLate(q, job);
      }
    }
  }

  lemma {:induction false} PrecededStill(q: Queue, job: Job, j: Job)
    requires job in q.adding && job !in q.landed && Preceded(q, j)
    ensures Preceded(Next(q, AddLand(job)), j)
  {
    var i :| i in q.landed && q.landed[j] < q.landed[i] && Leads(q, i, j);
    assert Leads(Next(q, AddLand(job)), i, j);
  }

  lemma {:induction false} LandsLate(q: Queue, job: Job)
    requires job in q.adding && job !in q.landed && !Taken(q, job) && Overtaken(q, job)
    ensures Preceded(Next(q, AddLand(job)), job)
  {
    var i :| i in q.landed && Taken(q, i) && q.adding[job] < q.landed[i];
    if Started(q.dispatched, i) {
      StartedComes(q.dispatched, i, job);
    }
    assert Leads(Next(q, AddLand(job)), i, job);
  }

  lemma {:induction false} NotTaken(q: Queue, job: Job)
    requires Safe(q) && Once(q) && job in q.adding
    ensures !Taken(q, job)
  {
    NotAhead(q, job);
    assert job !in q.landed;
    assert !Started(q.dispatched, job);
  }

  lemma {:induction false} NotAhead(q: Queue, job: Job)
    requires Safe(q) && job !in q.landed
    ensures !Ahead(q.passes, job)
  {
  }

  lemma {:induction false} LandsInOrder(q: Queue, job: Job)
    requires Safe(q) && job in q.adding && !Overtaken(q, job)
    ensures forall d :: d in q.dispatched ==> d.score <= q.adding[job]
    ensures forall i :: i in q.landed && Ahead(q.passes, i) ==> q.landed[i] <= q.adding[job]
  {
    forall d | d in q.dispatched ensures d.score <= q.adding[job] {
      assert Started(q.dispatched, d.job);
      assert Taken(q, d.job);
    }
    forall i | i in q.landed && Ahead(q.passes, i) ensures q.landed[i] <= q.adding[job] {
      assert Taken(q, i);
    }
  }

  lemma {:induction false} FetchedPlaced(q: Queue, late: set<Job>, pass: nat, jobs: seq<Job>)
    requires Safe(q) && Once(q) && Placed(q, late) && Enabled(q, Fetched(pass, jobs))
    ensures Placed(Next(q, Fetched(pass, jobs)), late)
  {
    var now := q.passes[pass].now;
    var at := q.(horizon := now);
    assert forall j :: !Ahead(q.passes, j) && !InHand(q.passes, j);
    forall k | 0 <= k < |jobs| ensures jobs[k] in q.scores && q.landed[jobs[k]] == q.scores[jobs[k]] <= now
    {
      assert jobs[k] in jobs;
    }
    forall j | j in q.scores && !Later(jobs, 0, j) ensures now < q.scores[j] {
      assert j !in jobs;
    }
    forall j | j in late ensures LedAt(at, jobs, 0, j) {
      assert Preceded(q, j);
      var i :| i in q.landed && q.landed[j] < q.landed[i] && Leads(q, i, j);
      assert Comes(at.dispatched, i, j);
    }
    forall j | j in q.scores && j !in late ensures WaitsAt(at, jobs, 0, j) {
      assert WaitsInOrder(q, late, j);
    }
    assert AtPlace(at, late, pass, jobs, 0);
    StartPlaced(at, late, pass, now, jobs, 0);
  }

  lemma {:induction false} FetchFailPlaced(q: Queue, late: set<Job>, pass: nat)
    requires Safe(q) && Placed(q, late) && Enabled(q, FetchFail(pass))
    ensures Placed(Next(q, FetchFail(pass)), late)
  {
    assert forall j :: !Ahead(q.passes, j);
    assert q.passes - {pass} == map[];
    QuietPlaced(q, Next(q, FetchFail(pass)), late);
  }

  /** What is ahead is the rest of this snapshot. */
  ghost predicate Working(q: Queue, pass: nat, jobs: seq<Job>, i: nat)
  {
    && pass in q.passes && (forall p :: p in q.passes ==> p == pass)
    && !q.passes[pass].stage.Fetching? && q.passes[pass].stage.jobs == jobs && q.passes[pass].stage.next == i
    && i < |jobs|
    && (forall j :: j in jobs ==> j in q.landed)
  }

  lemma {:induction false} RemovedWorking(q: Queue, pass: nat)
    requires Safe(q) && Once(q) && Enabled(q, Removed(pass))
    ensures Working(q, pass, q.passes[pass].stage.jobs, q.passes[pass].stage.next)
    ensures PassOnce(q.scores, q.dispatched, q.passes[pass])
  {
    assert PassSafe(q, q.passes[pass]);
  }

  lemma {:induction false} RemovedIsStart(q: Queue, pass: nat, jobs: seq<Job>, i: nat)
    requires Enabled(q, Removed(pass)) && q.passes[pass].stage.jobs == jobs && q.passes[pass].stage.next == i
    ensures i + 1 < |jobs| ==> jobs[i + 1] in q.landed
    ensures Next(q, Removed(pass))
            == Start(q.(scores := q.scores - {jobs[i]}), pass, q.passes[pass].now, jobs, i + 1)
  {
  }

  lemma {:induction false} RemovedPlaced(q: Queue, late: set<Job>, pass: nat)
    requires Safe(q) && Once(q) && Placed(q, late) && Enabled(q, Removed(pass))
    ensures Placed(Next(q, Removed(pass)), late)
  {
    RemovedWorking(q, pass);
    var now, jobs, i := q.passes[pass].now, q.passes[pass].stage.jobs, q.passes[pass].stage.next;
    RemovedIsStart(q, pass, jobs, i);
    NextPlaced(q, late, pass, now, jobs, i);
  }

  lemma {:induction false} NextPlaced(q: Queue, late: set<Job>, pass: nat, now: nat, jobs: seq<Job>, i: nat)
    requires Safe(q) && Placed(q, late) && Working(q, pass, jobs, i) && PassOnce(q.scores, q.dispatched, q.passes[pass])
    ensures i + 1 < |jobs| ==> jobs[i + 1] in q.landed
    ensures Placed(Start(q.(scores := q.scores - {jobs[i]}), pass, now, jobs, i + 1), late)
  {
    FewerSafe(q, jobs[i]);
    RemovedAtPlace(q, late, pass, jobs, i);
    StartPlaced(q.(scores := q.scores - {jobs[i]}), late, pass, now, jobs, i + 1);
  }

  lemma {:induction false} RemovedAtPlace(q: Queue, late: set<Job>, pass: nat, jobs: seq<Job>, i: nat)
    requires Placed(q, late) && Working(q, pass, jobs, i) && PassOnce(q.scores, q.dispatched, q.passes[pass])
    ensures AtPlace(q.(scores := q.scores - {jobs[i]}), late, pass, jobs, i + 1)
  {
    var left := q.(scores := q.scores - {jobs[i]});
    InHandStarted(q, pass, jobs, i);
    assert SnapshotSorted(q, q.passes[pass]);
    forall j | j in left.scores && j !in late ensures WaitsAt(left, jobs, i + 1, j) {
      RemovedWaits(q, late, pass, jobs, i, j);
    }
    forall j | j in late ensures j in q.landed && LedAt(left, jobs, i + 1, j) {
      RemovedLed(q, late, pass, jobs, i, j);
    }
  }

  lemma {:induction false} InHandStarted(q: Queue, pass: nat, jobs: seq<Job>, i: nat)
    requires Working(q, pass, jobs, i) && PassOnce(q.scores, q.dispatched, q.passes[pass])
    ensures Started(q.dispatched, jobs[i])
    ensures i + 1 < |jobs| ==> jobs[i + 1] in q.scores && jobs[i + 1] != jobs[i] && !Started(q.dispatched, jobs[i + 1])
  {
  }

  lemma {:induction false} RemovedWaits(q: Queue, late: set<Job>, pass: nat, jobs: seq<Job>, i: nat, job: Job)
    requires Working(q, pass, jobs, i) && WaitsInOrder(q, late, job)
    requires job in q.scores && job !in late && job != jobs[i]
    ensures WaitsAt(q.(scores := q.scores - {jobs[i]}), jobs, i + 1, job)
  {
    OnlyPass(q, pass, job);
    LaterFrom(jobs, i, job);
    forall k | !Later(jobs, i + 1, job) && i + 1 <= k < |jobs| ensures q.landed[jobs[k]] <= q.scores[job] {
      OnlyPass(q, pass, jobs[k]);
      assert Later(jobs, i, jobs[k]) && jobs[k] in jobs;
    }
  }

  lemma {:induction false} RemovedLed(q: Queue, late: set<Job>, pass: nat, jobs: seq<Job>, i: nat, job: Job)
    requires Working(q, pass, jobs, i) && Preceded(q, job) && Started(q.dispatched, jobs[i])
    ensures LedAt(q.(scores := q.scores - {jobs[i]}), jobs, i + 1, job)
  {
    var l :| l in q.landed && q.landed[job] < q.landed[l] && Leads(q, l, job);
    if !Comes(q.dispatched, l, job) {
      OnlyPass(q, pass, l);
      OnlyPass(q, pass, job);
      LaterFrom(jobs, i, l);
      LaterFrom(jobs, i, job);
      if l == jobs[i] {
        StartedComes(q.dispatched, l, job);
      }
    }
  }

  lemma {:induction false} LaterFrom(jobs: seq<Job>, i: nat, job: Job)
    requires i < |jobs|
    ensures Later(jobs, i, job) <==> job == jobs[i] || Later(jobs, i + 1, job)
  {
    if job == jobs[i] || Later(jobs, i + 1, job) {
      var k :| i <= k < |jobs| && jobs[k] == job;
    }
  }

  lemma {:induction false} StepPlaced(q: Queue, late: set<Job>, e: Event)
    requires Safe(q) && Once(q) && Placed(q, late) && Enabled(q, e) && !e.Crash? && !e.RemoveFail?
    ensures Placed(Next(q, e), late + if e.AddLand? && Overtaken(q, e.job) then {e.job} else {})
  {
    assert late + {} == late;
    match e {
      case Advance(_) => QuietPlaced(q, Next(q, e), late);
      case Tick(_) => TickPlaced(q, late, e);
      case AddBegin(_) => QuietPlaced(q, Next(q, e), late);
      case AddLand(job) => AddLandPlaced(q, late, job);
      case AddFail(_) => QuietPlaced(q, Next(q, e), late);
      case Fetched(pass, jobs) => FetchedPlaced(q, late, pass, jobs);
      case FetchFail(pass) => FetchFailPlaced(q, late, pass);
      case JobEnd(pass, ok) => JobEndPlaced(q, late, pass, ok);
      case Removed(pass) => RemovedPlaced(q, late, pass);
    }
  }

  lemma {:induction false} TickPlaced(q: Queue, late: set<Job>, e: Event)
    requires Safe(q) && Placed(q, late) && Enabled(q, e) && e.Tick?
    ensures Placed(Next(q, e), late)
  {
    if !q.isProcessing {
      assert q.passes == map[];
      assert forall j :: !Ahead(q.passes, j) && !Ahead(Next(q, e).passes, j);
    }
    QuietPlaced(q, Next(q, e), late);
  }

  lemma {:induction false} OneMoreLate(q: Queue, run: seq<Event>)
    requires run != []
    ensures var before, e, late := After(q, run[..|run| - 1]), run[|run| - 1], Late(q, run[..|run| - 1]);
      if Enabled(before, e)
      then After(q, run) == Next(before, e)
           && Late(q, run) == late + if e.AddLand? && Overtaken(before, e.job) then {e.job} else {}
      else After(q, run) == before && Late(q, run) == late
  {
  }

  lemma {:induction false} RunPlaced(clock: nat, run: seq<Event>)
    requires FaultFree(run)
    ensures Placed(After(Fresh(clock), run), Late(Fresh(clock), run))
  {
    if run != [] {
      var head, e := run[..|run| - 1], run[|run| - 1];
      assert e in run;
      RunPlaced(clock, head);
      EachJobOnce(clock, head);
      OnePassAndNoEarlyStart(clock, head);
      OneMoreLate(Fresh(clock), run);
      var before := After(Fresh(clock), head);
      if Enabled(before, e) {
        StepPlaced(before, Late(Fresh(clock), head), e);
      }
    }
  }

  /**
   * Without a crash or a failed removal, jobs are started in the order of their scores exactly when no started job was
   * overtaken at its landing. How late the landing is does not matter by itself.
   */
  lemma {:induction false} SortedIff(clock: nat, run: seq<Event>)
    requires FaultFree(run)
    ensures var dispatched := After(Fresh(clock), run).dispatched;
      Sorted(dispatched) <==> forall d :: d in dispatched ==> d.job !in Late(Fresh(clock), run)
  {
    RunPlaced(clock, run);
    OnePassAndNoEarlyStart(clock, run);
    var q, late := After(Fresh(clock), run), Late(Fresh(clock), run);
    forall d | d in q.dispatched && d.job in late ensures !Sorted(q.dispatched) {
      assert Preceded(q, d.job);
      var b :| 0 <= b < |q.dispatched| && q.dispatched[b] == d;
      assert Started(q.dispatched, d.job);
      var i :| i in q.landed && q.landed[d.job] < q.landed[i] && Leads(q, i, d.job);
      var a :| 0 <= a < |q.dispatched| && q.dispatched[a].job == i && a < b;
      assert q.dispatched[a] in q.dispatched;
      assert q.dispatched[b].score < q.dispatched[a].score;
    }
    if forall d :: d in q.dispatched ==> d.job !in late {
      forall a, b | 0 <= a < b < |q.dispatched| ensures q.dispatched[a].score <= q.dispatched[b].score {
        assert q.dispatched[b] in q.dispatched;
      }
    }
  }

  /** What is taken is due, so an add that lands within its delay is never overtaken. */
  lemma {:induction false} PunctualIsNeverLate(clock: nat, run: seq<Event>)
    requires Punctual(Fresh(clock), run)
    ensures Late(Fresh(clock), run) == {}
  {
    if run != [] {
      var head, e := run[..|run| - 1], run[|run| - 1];
      PunctualIsNeverLate(clock, head);
      OnePassAndNoEarlyStart(clock, head);
      var before := After(Fresh(clock), head);
      if e.AddLand? && e.job in before.adding {
        forall i | i in before.landed && Taken(before, i) ensures before.landed[i] <= before.clock {
          TakenIsDue(before, i);
        }
      }
    }
  }

  lemma {:induction false} TakenIsDue(q: Queue, job: Job)
    requires Safe(q) && job in q.landed && Taken(q, job)
    ensures q.landed[job] <= q.clock
  {
    if Started(q.dispatched, job) {
      var a :| 0 <= a < |q.dispatched| && q.dispatched[a].job == job;
      assert q.dispatched[a] in q.dispatched;
    } else {
      var p, k :| p in q.passes && !q.passes[p].stage.Fetching?
        && q.passes[p].stage.next <= k < |q.passes[p].stage.jobs| && q.passes[p].stage.jobs[k] == job;
      assert PassSafe(q, q.passes[p]);
      assert job in q.passes[p].stage.jobs;
    }
  }
}
