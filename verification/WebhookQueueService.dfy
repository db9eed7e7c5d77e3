/**
 * The queue service itself. Whatever else happens while a call is suspended is
 * chosen freely by `Others`; `run` records the steps, and `Valid` says that the
 * fields are what the step system reaches by them.
 */
module WebhookQueueServices {
  import opened Common
  import opened WebhookQueue

  /** What may happen while the only pass is suspended. */
  predicate FromOutside(e: Event)
  {
    e.Advance? || e.Tick? || e.AddBegin? || e.AddLand? || e.AddFail?
  }

  /** Some members of a set of jobs, in order of score, each once. */
  ghost predicate Ordered(scores: map<Job, nat>, jobs: seq<Job>)
  {
    && (forall j :: j in jobs ==> j in scores)
    && (forall a, b :: 0 <= a < b < |jobs| ==> jobs[a] != jobs[b] && scores[jobs[a]] <= scores[jobs[b]])
  }

  lemma {:induction false} InsertOrdered(scores: map<Job, nat>, jobs: seq<Job>, i: nat, job: Job)
    requires Ordered(scores, jobs) && job in scores && job !in jobs && i <= |jobs|
    requires forall a :: 0 <= a < i ==> scores[jobs[a]] <= scores[job]
    requires forall b :: i <= b < |jobs| ==> scores[job] <= scores[jobs[b]]
    ensures Ordered(scores, jobs[..i] + [job] + jobs[i..])
    ensures forall j :: j in jobs[..i] + [job] + jobs[i..] <==> j in jobs || j == job
  {
    var more := jobs[..i] + [job] + jobs[i..];
    forall j ensures j in more <==> j in jobs || j == job {
      assert jobs == jobs[..i] + jobs[i..];
      assert more[i] == job;
    }
    forall a, b | 0 <= a < b < |more| ensures more[a] != more[b] && scores[more[a]] <= scores[more[b]] {
      assert a < i ==> more[a] == jobs[a];
      assert a > i ==> more[a] == jobs[a - 1];
      assert b < i ==> more[b] == jobs[b];
      assert b > i ==> more[b] == jobs[b - 1];
    }
  }

  /** The sorted set's range query. */
  method RangeByScore(scores: map<Job, nat>, now: nat) returns (jobs: seq<Job>)
    ensures Range(scores, now, jobs)
  {
    jobs := [];
    var rest := set j | j in scores && scores[j] <= now;
    while rest != {}
      invariant Ordered(scores, jobs)
      invariant forall j :: j in scores && scores[j] <= now <==> j in rest || j in jobs
      invariant forall j :: j in rest ==> j !in jobs
      decreases rest
    {
      var job :| job in rest;
      var i := 0;
      while i < |jobs| && scores[jobs[i]] <= scores[job]
        invariant i <= |jobs|
        invariant forall a :: 0 <= a < i ==> scores[jobs[a]] <= scores[job]
      {
        i := i + 1;
      }
      InsertOrdered(scores, jobs, i, job);
      jobs := jobs[..i] + [job] + jobs[i..];
      rest := rest - {job};
    }
  }

  lemma {:induction false} Longer(clock: nat, run: seq<Event>, e: Event)
    requires Possible(Fresh(clock), run) && Enabled(After(Fresh(clock), run), e)
    ensures Possible(Fresh(clock), run + [e])
    ensures After(Fresh(clock), run + [e]) == Next(After(Fresh(clock), run), e)
  {
    OneMore(Fresh(clock), run, run + [e], e, Next(After(Fresh(clock), run), e));
  }

  class WebhookQueueService {
    var clock: nat
    var scores: map<Job, nat>
    var adding: map<Job, nat>
    var isProcessing: bool
    ghost var passes: map<nat, Pass>
    var landed: map<Job, nat>   // history, so that an identifier is not handed out twice
    ghost var dispatched: seq<Dispatch>
    ghost var horizon: nat
    ghost var run: seq<Event>
    ghost const opening: nat

    ghost function View(): Queue
      reads this
    {
      Queue(clock, scores, adding, isProcessing, passes, landed, dispatched, horizon)
    }

    ghost predicate Valid()
      reads this
    {
      Possible(Fresh(opening), run) && View() == After(Fresh(opening), run)
    }

    constructor (now: nat)
      ensures Valid() && clock == now && scores == map[] && !isProcessing
    {
      clock, scores, adding, isProcessing := now, map[], map[], false;
      passes, landed, dispatched, horizon, run := map[], map[], [], 0, [];
      opening := now;
    }

    /** A step already made on the fields joins the run. */
    ghost method Record(e: Event, before: Queue)
      requires Possible(Fresh(opening), run) && before == After(Fresh(opening), run)
      requires Enabled(before, e) && View() == Next(before, e)
      modifies `run
      ensures Valid() && run == old(run) + [e]
    {
      Longer(opening, run, e);
      run := run + [e];
    }

    /** One step from outside, if it is possible now; a tick finds the flag up and returns. */
    method OtherStep(e: Event)
      requires Valid() && isProcessing
      modifies this
      ensures Valid() && isProcessing
      ensures passes == old(passes) && dispatched == old(dispatched) && horizon == old(horizon)
      ensures run == old(run) || (FromOutside(e) && run == old(run) + [e])
      ensures old(clock) <= clock
      ensures forall j :: j in old(landed) ==> j in landed && landed[j] == old(landed)[j]
      ensures forall j :: j in old(landed) ==> (j in scores <==> j in old(scores))
    {
      OnePassAndNoEarlyStart(opening, run);
      ghost var before := View();
      if e.Advance? && clock <= e.to {
        clock := e.to;
      } else if e.AddBegin? && e.job !in adding && e.job !in landed {
        adding := adding[e.job := clock + WEBHOOK_DELAY_MS];
      } else if e.AddLand? && e.job in adding {
        scores, landed, adding := scores[e.job := adding[e.job]], landed[e.job := adding[e.job]], adding - {e.job};
      } else if e.AddFail? && e.job in adding {
        adding := adding - {e.job};
      } else {
        if e.Tick? && Enabled(before, e) {
          Record(e, before);
        }
        return;
      }
      Record(e, before);
    }

    /** Other calls and the clock, for as long as they like, while the only pass is suspended. */
    method Others()
      requires Valid() && isProcessing
      modifies this
      ensures Valid() && isProcessing
      ensures passes == old(passes) && dispatched == old(dispatched) && horizon == old(horizon)
      ensures old(run) <= run && (forall i :: |old(run)| <= i < |run| ==> FromOutside(run[i]))
      ensures old(clock) <= clock
      ensures forall j :: j in old(landed) ==> j in landed && landed[j] == old(landed)[j]
      ensures forall j :: j in old(landed) ==> (j in scores <==> j in old(scores))
    {
      var steps: nat := *;
      while steps > 0
        invariant Valid() && isProcessing
        invariant passes == old(passes) && dispatched == old(dispatched) && horizon == old(horizon)
        invariant old(run) <= run && (forall i :: |old(run)| <= i < |run| ==> FromOutside(run[i]))
        invariant old(clock) <= clock
        invariant forall j :: j in old(landed) ==> j in landed && landed[j] == old(landed)[j]
        invariant forall j :: j in old(landed) ==> (j in scores <==> j in old(scores))
      {
        var e: Event := *;
        OtherStep(e);
        steps := steps - 1;
      }
    }

    /** The call whose command is not overtaken by anything; `Others` covers the rest. A lost reply leaves the job. */
    method AddToQueue(job: Job) returns (r: Reply)
      requires Valid() && job !in adding && job !in landed
      modifies this
      ensures Valid()
      ensures r.Returned? ==> scores == old(scores)[job := clock + WEBHOOK_DELAY_MS]
      ensures r.Thrown? ==> scores == old(scores) || scores == old(scores)[job := clock + WEBHOOK_DELAY_MS]
      ensures clock == old(clock) && isProcessing == old(isProcessing) && passes == old(passes)
      ensures dispatched == old(dispatched) && adding == old(adding)
    {
      var score := clock + WEBHOOK_DELAY_MS;
      Longer(opening, run, AddBegin(job));
      ghost var sent := run + [AddBegin(job)];
      var reached: bool, answered: bool := *, *;
      assert adding[job := score] - {job} == adding;
      if reached {
        scores, landed := scores[job := score], landed[job := score];
        Longer(opening, sent, AddLand(job));
        run := sent + [AddLand(job)];
        r := if answered then Returned else Thrown("zadd failed");
      } else {
        Longer(opening, sent, AddFail(job));
        run := sent + [AddFail(job)];
        r := Thrown("zadd failed");
      }
    }

    /** The loop reaches job `i` and starts it, or is over and the finally block lowers the flag. */
    method StartOrFinish(ghost pass: nat, now: nat, jobs: seq<Job>, i: nat)
      requires i < |jobs| ==> jobs[i] in landed
      modifies `isProcessing, `passes, `dispatched
      ensures View() == Start(old(View()), pass, now, jobs, i)
    {
      if i < |jobs| {
        passes := passes[pass := Pass(now, Running(jobs, i))];
        dispatched := dispatched + [Dispatch(jobs[i], landed[jobs[i]], clock)];
      } else {
        isProcessing, passes := false, passes - {pass};
      }
    }

    ghost predicate RunningJob(pass: nat, now: nat, jobs: seq<Job>, i: nat)
      reads this
    {
      && Valid() && isProcessing && i < |jobs| && passes == map[pass := Pass(now, Running(jobs, i))]
      && (forall j :: j in jobs ==> j in landed)
      && (forall a, b :: 0 <= a < b < |jobs| ==> jobs[a] != jobs[b])
    }

    ghost predicate RemovingJob(pass: nat, now: nat, jobs: seq<Job>, i: nat, failed: bool)
      reads this
    {
      && Valid() && isProcessing && i < |jobs| && passes == map[pass := Pass(now, Removing(jobs, i, failed))]
      && (forall j :: j in jobs ==> j in landed)
      && (forall a, b :: 0 <= a < b < |jobs| ==> jobs[a] != jobs[b])
    }

    /** The removal went through: the next job starts, or the pass is over. */
    method JobRemoved(ghost pass: nat, now: nat, jobs: seq<Job>, i: nat, ghost failed: bool)
      requires RemovingJob(pass, now, jobs, i, failed)
      modifies this
      ensures Valid() && old(run) <= run && horizon == old(horizon) && landed == old(landed)
      ensures scores == old(scores) - {jobs[i]}
      ensures i + 1 < |jobs| ==>
        && RunningJob(pass, now, jobs, i + 1)
        && dispatched == old(dispatched) + [Dispatch(jobs[i + 1], landed[jobs[i + 1]], clock)]
      ensures i + 1 == |jobs| ==> !isProcessing && passes == map[] && dispatched == old(dispatched)
    {
      ghost var before := View();
      scores := scores - {jobs[i]};
      if i + 1 < |jobs| {
        assert jobs[i + 1] in jobs;
      }
      StartOrFinish(pass, now, jobs, i + 1);
      assert passes == if i + 1 < |jobs| then map[pass := Pass(now, Running(jobs, i + 1))] else map[];
      Record(Removed(pass), before);
    }

    /** The removal was refused, or its reply was lost: on to the catch block, or out of it. */
    method RemovalRefused(ghost pass: nat, now: nat, jobs: seq<Job>, i: nat, failed: bool)
      requires RemovingJob(pass, now, jobs, i, failed)
      modifies this
      ensures Valid() && old(run) <= run && horizon == old(horizon) && landed == old(landed)
      ensures scores == old(scores) || scores == old(scores) - {jobs[i]}
      ensures failed ==> !isProcessing && passes == map[]
      ensures !failed ==> RemovingJob(pass, now, jobs, i, true) && dispatched == old(dispatched)
    {
      ghost var before := View();
      var applied: bool := *;
      if applied {
        scores := scores - {jobs[i]};
      }
      if failed {
        isProcessing, passes := false, map[];
        assert old(passes) - {pass} == map[];
      } else {
        passes := map[pass := Pass(now, Removing(jobs, i, true))];
      }
      Record(RemoveFail(pass, applied), before);
    }

    /** One removal command and what its reply leads to. */
    method RemoveJob(ghost pass: nat, now: nat, jobs: seq<Job>, i: nat, failed: bool) returns (removed: bool)
      requires RemovingJob(pass, now, jobs, i, failed)
      modifies this
      ensures Valid() && old(run) <= run && horizon == old(horizon) && landed == old(landed)
      ensures scores == old(scores) - {jobs[i]} || (!removed && scores == old(scores))
      ensures removed && i + 1 < |jobs| ==>
        && RunningJob(pass, now, jobs, i + 1)
        && dispatched == old(dispatched) + [Dispatch(jobs[i + 1], landed[jobs[i + 1]], clock)]
      ensures removed && i + 1 == |jobs| ==> !isProcessing && passes == map[] && dispatched == old(dispatched)
      ensures !removed && failed ==> !isProcessing && passes == map[]
      ensures !removed && !failed ==> RemovingJob(pass, now, jobs, i, true) && dispatched == old(dispatched)
    {
      removed := *;
      if removed {
        JobRemoved(pass, now, jobs, i, failed);
      } else {
        RemovalRefused(pass, now, jobs, i, failed);
      }
    }

    /** Job `i` ends, and time passes until its removal is answered. */
    method EndJob(ghost pass: nat, now: nat, jobs: seq<Job>, i: nat) returns (ok: bool)
      requires RunningJob(pass, now, jobs, i)
      modifies this
      ensures RemovingJob(pass, now, jobs, i, !ok) && old(run) <= run && horizon == old(horizon)
          && dispatched == old(dispatched)
      ensures forall j :: j in old(landed) ==> j in landed && landed[j] == old(landed)[j]
      ensures forall j :: j in old(landed) ==> (j in scores <==> j in old(scores))
    {
      Others();
      ghost var before := View();
      ok := *;
      passes := map[pass := Pass(now, Removing(jobs, i, !ok))];
      Record(JobEnd(pass, ok), before);
      Others();
    }

    /**
     * From the end of job `i`, however it ends, through its removal to the start of the next one. A removal
     * refused inside the try block is tried again; refused in the catch block, it ends the pass.
     */
    method FinishJob(ghost pass: nat, now: nat, jobs: seq<Job>, i: nat) returns (r: Reply)
      requires RunningJob(pass, now, jobs, i)
      modifies this
      ensures Valid() && old(run) <= run && horizon == old(horizon)
      ensures r.Thrown? ==> !isProcessing && passes == map[]
      ensures forall j :: j in old(landed) ==> j in landed && landed[j] == old(landed)[j]
      ensures r.Returned? ==> jobs[i] !in scores
      ensures forall j :: j in old(landed) && j != jobs[i] ==> (j in scores <==> j in old(scores))
      ensures r.Returned? && i + 1 < |jobs| ==>
        && RunningJob(pass, now, jobs, i + 1)
        && dispatched == old(dispatched) + [Dispatch(jobs[i + 1], landed[jobs[i + 1]], clock)]
      ensures r.Returned? && i + 1 == |jobs| ==> !isProcessing && passes == map[] && dispatched == old(dispatched)
    {
      var ok := EndJob(pass, now, jobs, i);
      var removed := RemoveJob(pass, now, jobs, i, !ok);
      if !removed && ok {
        Others();
        removed := RemoveJob(pass, now, jobs, i, true);
      }
      r := if removed then Returned else Thrown("zrem failed");
    }

    /** What `ProcessQueue` is to achieve with the jobs due at `now`, when `i` of them are done. */
    ghost predicate DoneUpTo(pass: nat, now: nat, jobs: seq<Job>, i: nat, earlier: seq<Dispatch>)
      reads this
    {
      && i <= |jobs|
      && (if i < |jobs| then RunningJob(pass, now, jobs, i) else Valid() && !isProcessing)
      && (forall k :: 0 <= k < |jobs| ==>
            jobs[k] in landed && landed[jobs[k]] <= now && (jobs[k] in scores <==> i <= k))
      && (forall a, b :: 0 <= a < b < |jobs| ==> jobs[a] != jobs[b] && landed[jobs[a]] <= landed[jobs[b]])
      && |dispatched| == |earlier| + (if i < |jobs| then i + 1 else i)
      && earlier <= dispatched
      && (forall k :: 0 <= k < |jobs| && k <= i ==> dispatched[|earlier| + k].job == jobs[k])
    }

    /** The range query is refused, and the finally block lowers the flag. */
    method SnapshotRefused(ghost pass: nat)
      requires Valid() && pass in passes && passes[pass].stage.Fetching?
      modifies this
      ensures Valid() && old(run) <= run && !isProcessing
    {
      ghost var before := View();
      isProcessing, passes := false, passes - {pass};
      Record(FetchFail(pass), before);
    }

    /** The range query is answered, and the first due job is started. */
    method TakeSnapshot(ghost pass: nat, now: nat) returns (jobs: seq<Job>)
      requires Valid() && isProcessing && passes == map[pass := Pass(now, Fetching)]
      requires forall j :: j in scores ==> j in landed && landed[j] == scores[j]
      modifies this
      ensures Valid() && old(run) <= run
      ensures DoneUpTo(pass, now, jobs, 0, old(dispatched)) && horizon == now
      ensures forall j :: j in jobs <==> j in old(scores) && old(scores)[j] <= now
    {
      ghost var before := View();
      jobs := RangeByScore(scores, now);
      horizon := now;
      assert forall k :: 0 <= k < |jobs| ==> jobs[k] in jobs;
      StartOrFinish(pass, now, jobs, 0);
      assert landed == old(landed) && scores == old(scores);
      assert jobs == [] ==> dispatched == old(dispatched) && !isProcessing;
      assert jobs != [] ==> dispatched == old(dispatched) + [Dispatch(jobs[0], landed[jobs[0]], clock)];
      Record(Fetched(pass, jobs), before);
    }

    /** The flag goes up, the range query is sent, and the first due job is started when the reply arrives. */
    method FetchDue(ghost pass: nat) returns (r: Reply, now: nat, jobs: seq<Job>)
      requires Valid() && !isProcessing && pass !in passes
      modifies this
      ensures Valid() && old(run) + [Tick(pass)] <= run
      ensures r.Thrown? ==> !isProcessing
      ensures now == old(clock)
      ensures r.Returned? ==> DoneUpTo(pass, now, jobs, 0, old(dispatched)) && horizon == old(clock)
      ensures r.Returned? ==> forall j :: j in old(scores) && old(scores)[j] <= old(clock) ==> j in jobs
    {
      OnePassAndNoEarlyStart(opening, run);
      ghost var before := View();
      now := clock;
      isProcessing, passes := true, map[pass := Pass(now, Fetching)];
      Record(Tick(pass), before);
      Others();
      OnePassAndNoEarlyStart(opening, run);
      r, jobs := Returned, [];
      var reached: bool := *;
      if reached {
        jobs := TakeSnapshot(pass, now);
      } else {
        SnapshotRefused(pass);
        r := Thrown("zrangebyscore failed");
      }
    }

    /** The loop over the snapshot. */
    method WorkOff(ghost pass: nat, now: nat, jobs: seq<Job>, ghost earlier: seq<Dispatch>) returns (r: Reply)
      requires DoneUpTo(pass, now, jobs, 0, earlier)
      modifies this
      ensures Valid() && old(run) <= run && !isProcessing
      ensures r.Returned? ==> DoneUpTo(pass, now, jobs, |jobs|, earlier)
    {
      var i := 0;
      while i < |jobs|
        invariant DoneUpTo(pass, now, jobs, i, earlier)
        invariant old(run) <= run
      {
        r := FinishJob(pass, now, jobs, i);
        if r.Thrown? {
          return;
        }
        i := i + 1;
      }
      r := Returned;
    }

    /**
     * A tick. A running pass makes it return at once. Otherwise the flag is down at the end however the pass
     * ended, and if no Redis command was refused twice, every job that was due is started, in order of score,
     * and leaves the queue.
     */
    method ProcessQueue(ghost pass: nat) returns (r: Reply, jobs: seq<Job>)
      requires Valid() && pass !in passes
      modifies this
      ensures Valid() && old(run) + [Tick(pass)] <= run
      ensures old(isProcessing) ==> r.Returned? && jobs == [] && run == old(run) + [Tick(pass)] && View() == old(View())
      ensures !old(isProcessing) ==> !isProcessing
      ensures !old(isProcessing) && r.Returned? ==>
        && (forall j :: j in old(scores) && old(scores)[j] <= old(clock) ==> j in jobs)
        && DoneUpTo(pass, old(clock), jobs, |jobs|, old(dispatched))
    {
      if isProcessing {
        ghost var before := View();
        Record(Tick(pass), before);
        return Returned, [];
      }
      var now;
      r, now, jobs := FetchDue(pass);
      if r.Returned? {
        r := WorkOff(pass, now, jobs, old(dispatched));
      }
    }
  }
}
