/** How long an accepted job can wait, when each send takes at most 300 seconds (the client's
    transfer timeout) and the worker otherwise takes no time. */
module QueueTiming {
  import opened Text
  import opened TransferQueue
  import opened Ring
  import opened QueueSystem
  import Files

  const SEND_TIMEOUT_SECONDS: int := 300
  const RESPONSE_SECONDS: int := MAX_TRANSFER_JOBS * SEND_TIMEOUT_SECONDS
  /** What the retention period leaves over after the longest wait. */
  const STAGING_MARGIN_SECONDS: int := Files.STAGING_RETENTION_SECONDS - RESPONSE_SECONDS

  /** Time passes only while the worker waits with nothing signalled, has left, or is sending, and
      then only up to the send's timeout. */
  predicate Timely(s: Sys, e: Event) {
    e.Ticked? ==>
      match s.worker
      case Sending(_, since) => s.now + e.seconds <= since + SEND_TIMEOUT_SECONDS
      case Asleep(signalled) => signalled ==> e.seconds == 0
      case Looping => e.seconds == 0
      case Exited => true
  }

  predicate TimelyRun(states: seq<Sys>, events: seq<Event>) {
    && Run(states, events)
    && forall n :: 0 <= n < |events| ==> Timely(states[n], events[n])
  }

  /** The latest time at which the worker is free again. */
  function FreeAt(s: Sys): int {
    if s.worker.Sending? then s.worker.since + SEND_TIMEOUT_SECONDS else s.now
  }

  /** The job at place `k` of the ring will have been sent `k + 1` timeouts after the worker is
      next free, and that is soon enough. */
  predicate PendingInTime(jobs: seq<Job>, p: seq<nat>, freeAt: int, now: int) {
    forall k :: 0 <= k < |p| ==>
      && p[k] < |jobs|
      && jobs[p[k]].createdAt <= now
      && freeAt + SEND_TIMEOUT_SECONDS * (k + 1) <= jobs[p[k]].createdAt + RESPONSE_SECONDS
  }

  predicate InTime(s: Sys)
    requires Typed(s)
  {
    && PendingInTime(s.q.jobs, Pending(s.q), FreeAt(s), s.now)
    && (s.worker.Sending? ==>
          && s.worker.since <= s.now <= FreeAt(s)
          && s.q.jobs[s.worker.slot].createdAt <= s.now
          && FreeAt(s) <= s.q.jobs[s.worker.slot].createdAt + RESPONSE_SECONDS)
  }

  lemma SamePlaces(jobs: seq<Job>, jobs': seq<Job>, p: seq<nat>, freeAt: int, freeAt': int, now: int, now': int)
    requires PendingInTime(jobs, p, freeAt, now) && freeAt' <= freeAt && now <= now'
    requires |jobs'| == |jobs|
    requires forall k :: 0 <= k < |p| && p[k] < |jobs| ==> jobs'[p[k]].createdAt == jobs[p[k]].createdAt
    ensures PendingInTime(jobs', p, freeAt', now')
  {
  }

  lemma JoinInTime(jobs: seq<Job>, p: seq<nat>, freeAt: int, now: int, i: nat, job: Job)
    requires PendingInTime(jobs, p, freeAt, now) && i !in p && i < |jobs| && job.createdAt == now
    requires freeAt + SEND_TIMEOUT_SECONDS * (|p| + 1) <= now + RESPONSE_SECONDS
    ensures PendingInTime(jobs[i := job], p + [i], freeAt, now)
  {
  }

  lemma LeaveInTime(jobs: seq<Job>, p: seq<nat>, now: int, job: Job)
    requires PendingInTime(jobs, p, now, now) && p != [] && Distinct(p)
    ensures PendingInTime(jobs[p[0] := job], p[1..], now + SEND_TIMEOUT_SECONDS, now)
  {
    forall k | 0 <= k < |p[1..]|
      ensures p[1..][k] == p[k + 1] < |jobs| && jobs[p[0] := job][p[k + 1]] == jobs[p[k + 1]]
    {
    }
  }

  /** A new job joins at the end: with the slots before it taken, its wait still fits. */
  lemma PushedInTime(s: Sys, i: nat, job: Job)
    requires Inv(s) && InTime(s) && s.q.count < MAX_TRANSFER_JOBS && !s.worker.Exited?
    requires i < MAX_TRANSFER_JOBS && !s.q.jobs[i].inUse && job.inUse && job.status == Queued
    requires job.createdAt == s.now
    requires forall a :: 0 <= a < |s.accepted| ==> s.accepted[a].jobId != job.jobId
    ensures Typed(Pushed(s, i, job)) && InTime(Pushed(s, i, job))
  {
    var p := Pending(s.q);
    PushedInv(s, i, job);
    SlotsLeft(s, i);
    hide Inv, Pending, PendingInTime;
    JoinInTime(s.q.jobs, p, FreeAt(s), s.now, i, job);
  }

  /** The pending slots, the slot being sent and a free slot are all different. */
  lemma SlotsLeft(s: Sys, i: nat)
    requires Inv(s) && i < MAX_TRANSFER_JOBS && !s.q.jobs[i].inUse
    ensures i !in Pending(s.q) && (s.worker.Sending? ==> s.worker.slot != i)
    ensures s.q.count + (if s.worker.Sending? then 2 else 1) <= MAX_TRANSFER_JOBS
  {
    var p := Pending(s.q);
    assert SlotOk(s.q.jobs[i], i in p, InFlight(s.worker, i));
    if s.worker.Sending? {
      HeldSlot(s);
      Pigeonhole(p + [i] + [s.worker.slot], MAX_TRANSFER_JOBS);
    } else {
      Pigeonhole(p + [i], MAX_TRANSFER_JOBS);
    }
  }

  lemma PrunedInTime(s: Sys)
    requires Inv(s) && InTime(s)
    ensures InTime(s.(q := Pruned(s)))
  {
    PrunedInv(s);
    var p := Pending(s.q);
    forall k | 0 <= k < |p| ensures Pruned(s).jobs[p[k]] == s.q.jobs[p[k]] {
      assert SlotOk(s.q.jobs[p[k]], p[k] in p, InFlight(s.worker, p[k]));
    }
    if s.worker.Sending? {
      HeldSlot(s);
    }
    hide Inv, Pending;
    SamePlaces(s.q.jobs, Pruned(s).jobs, p, FreeAt(s), FreeAt(s), s.now, s.now);
  }

  lemma EnqueueInTime(s: Sys, request: Request, jobId: Option<string>)
    requires Inv(s) && InTime(s) && !s.worker.Exited? && Enabled(s, Enqueued(request, jobId))
    ensures InTime(ApplyEnqueue(s, request, jobId))
  {
    EnqueueCases(s, request, jobId);
    PrunedInv(s);
    PrunedInTime(s);
    var i := FirstFree(Pruned(s).jobs);
    hide Inv, ApplyEnqueue, Pushed, Pruned, InTime;
    if s.q.count < MAX_TRANSFER_JOBS && i < MAX_TRANSFER_JOBS && jobId.Some? {
      PushedInTime(s.(q := Pruned(s)), i, NewJob(request, jobId.value, s.now));
    }
  }

  lemma TakeInTime(s: Sys)
    requires Inv(s) && InTime(s) && s.worker.Looping?
    ensures InTime(ApplyTake(s))
  {
    TakeCases(s);
    if s.q.count > 0 {
      PoppedInv(s);
      var p := Pending(s.q);
      assert s.q.jobs[p[0]].createdAt <= s.now;
      assert s.now + SEND_TIMEOUT_SECONDS <= s.q.jobs[p[0]].createdAt + RESPONSE_SECONDS;
      hide Inv, ApplyTake, Pending, PendingInTime;
      LeaveInTime(s.q.jobs, p, s.now, Popped(s, p[0]).q.jobs[p[0]]);
    }
  }

  lemma RewrittenInTime(s: Sys, job: Job, w': Worker)
    requires Inv(s) && InTime(s) && s.worker.Sending? && (w' == s.worker || w' == Looping)
    requires job.inUse && job.jobId == s.q.jobs[s.worker.slot].jobId
    requires job.createdAt == s.q.jobs[s.worker.slot].createdAt
    requires if w' == s.worker then job.status == InProgress else Terminal(job)
    ensures Typed(Rewritten(s, job, w')) && InTime(Rewritten(s, job, w'))
  {
    RewrittenInv(s, job, w');
    HeldSlot(s);
    hide Inv, Pending;
    var s' := Rewritten(s, job, w');
    SamePlaces(s.q.jobs, s'.q.jobs, Pending(s.q), FreeAt(s), FreeAt(s'), s.now, s.now);
  }

  lemma StepInTime(s: Sys, e: Event)
    requires Inv(s) && InTime(s) && !s.worker.Exited? && Enabled(s, e) && Timely(s, e)
    ensures InTime(Apply(s, e))
  {
    match e
    case Enqueued(request, jobId) =>
      hide Inv, InTime;
      EnqueueInTime(s, request, jobId);
    case Took =>
      hide Inv, InTime;
      TakeInTime(s);
    case Progressed(_, _) =>
      HeldSlot(s);
      hide Inv, InTime;
      RewrittenInTime(s, Apply(s, e).q.jobs[s.worker.slot], s.worker);
    case Finished(_) =>
      HeldSlot(s);
      hide Inv, InTime;
      RewrittenInTime(s, Apply(s, e).q.jobs[s.worker.slot], Looping);
    case _ =>
      var s' := Apply(s, e);
      SamePending(s.q, s'.q);
      hide Pending;
      if s.worker != Asleep(false) || !e.Ticked? {
        SamePlaces(s.q.jobs, s'.q.jobs, Pending(s.q), FreeAt(s), FreeAt(s'), s.now, s'.now);
      }
  }

  lemma ExitedStays(s: Sys, e: Event)
    requires Typed(s) && Enabled(s, e) && s.worker.Exited?
    ensures Apply(s, e).worker.Exited?
  {
    hide Enqueue;
  }

  lemma {:induction false} RunInTime(states: seq<Sys>, events: seq<Event>, n: nat)
    requires TimelyRun(states, events) && n < |states| && !states[n].worker.Exited?
    ensures Inv(states[n]) && InTime(states[n])
  {
    RunInv(states, events, n);
    if n > 0 {
      RunInv(states, events, n - 1);
      RunStep(states, events, n - 1);
      var s, e := states[n - 1], events[n - 1];
      assert Timely(s, e);
      if s.worker.Exited? {
        ExitedStays(s, e);
      }
      hide Run, Inv, InTime, Apply, Enabled, Timely;
      RunInTime(states, events, n - 1);
      StepInTime(s, e);
    }
  }

  predicate Active(j: Job) {
    j.status == Queued || j.status == InProgress
  }

  /** Whoever is still waiting or being sent was accepted recently enough. */
  lemma ActiveWait(s: Sys, i: nat)
    requires Inv(s) && InTime(s) && i < MAX_TRANSFER_JOBS && Active(s.q.jobs[i])
    ensures s.q.jobs[i].createdAt <= s.now <= s.q.jobs[i].createdAt + RESPONSE_SECONDS
  {
    var p := Pending(s.q);
    assert SlotOk(s.q.jobs[i], i in p, InFlight(s.worker, i));
    hide Inv, Pending;
    if s.q.jobs[i].status == Queued {
      var k :| 0 <= k < |p| && p[k] == i;
    }
  }

  /** Main result: in every timely run, a job still queued or being sent was accepted no more than
      38400 seconds ago, provided no job was accepted after the worker had left. */
  lemma ResponseTime(states: seq<Sys>, events: seq<Event>, n: nat, i: nat)
    requires TimelyRun(states, events) && n < |states| && states[n].late == 0
    requires i < MAX_TRANSFER_JOBS && Active(states[n].q.jobs[i])
    ensures states[n].q.jobs[i].createdAt <= states[n].now <= states[n].q.jobs[i].createdAt + RESPONSE_SECONDS
    ensures RESPONSE_SECONDS == 38400
  {
    RunInv(states, events, n);
    var s := states[n];
    assert SlotOk(s.q.jobs[i], i in Pending(s.q), InFlight(s.worker, i));
    assert !s.worker.Exited?;
    RunInTime(states, events, n);
    hide Run, Inv, Pending;
    ActiveWait(s, i);
  }

  /** So the sweep that precedes each enqueue never takes the file of a job that is queued or being
      sent, if the file was last written less than 48000 seconds before the job was accepted. */
  lemma SweepSparesActiveJobs(states: seq<Sys>, events: seq<Event>, n: nat, i: nat, staging: Files.Directory)
    requires TimelyRun(states, events) && n < |states| && states[n].late == 0
    requires i < MAX_TRANSFER_JOBS && Active(states[n].q.jobs[i])
    requires var path := states[n].q.jobs[i].filepath;
      path in staging && states[n].q.jobs[i].createdAt - STAGING_MARGIN_SECONDS < staging[path].mtime
    ensures STAGING_MARGIN_SECONDS == 48000
    ensures var path := states[n].q.jobs[i].filepath;
      var swept := Files.Sweep(staging, Files.STAGING_RETENTION_SECONDS, states[n].now);
      path in swept && swept[path] == staging[path]
  {
    hide Run, TimelyRun;
    ResponseTime(states, events, n, i);
  }
}
