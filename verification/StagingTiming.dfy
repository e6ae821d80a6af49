/** The retention sweep against the queue's longest wait, in the combined system. */
module StagingTiming {
  import opened Staging
  import TQ = TransferQueue
  import QS = QueueSystem
  import QT = QueueTiming

  /** The worker is prompt and each send keeps to its timeout; other threads may take their time. */
  ghost predicate Timely(w: World, e: Event) {
    e.QueueStep? ==> QT.Timely(w.sys, e.step)
  }

  ghost predicate TimelyRun(worlds: seq<World>, events: seq<Event>) {
    && Run(worlds, events)
    && forall n :: 0 <= n < |events| ==> Timely(worlds[n], events[n])
  }

  lemma StepInTime(w: World, e: Event)
    requires Inv(w) && Enabled(w, e) && Timely(w, e) && !w.sys.worker.Exited? && QT.InTime(w.sys)
    ensures QS.Typed(Apply(w, e).sys) && QT.InTime(Apply(w, e).sys)
  {
    assert QS.Typed(w.sys);
    if e.SendQueued? {
      hide OwnersOk, RequestsOk, JobsOk, QS.Inv, QS.Apply, QT.InTime, QS.ApplyEnqueue, TQ.Enqueue;
      QT.EnqueueInTime(w.sys, JobRequest(w.reqs[e.id], e), e.jobId);
    } else if e.QueueStep? {
      hide OwnersOk, RequestsOk, JobsOk, QS.Inv, QS.Apply, QT.InTime;
      QT.StepInTime(w.sys, e.step);
    } else {
      hide OwnersOk, RequestsOk, JobsOk, QS.Inv, QT.InTime;
    }
  }

  lemma ExitedStays(w: World, e: Event)
    requires QS.Typed(w.sys) && Enabled(w, e) && w.sys.worker.Exited?
    ensures Apply(w, e).sys.worker.Exited?
  {
    hide TQ.Enqueue;
  }

  lemma {:induction false} RunInTime(worlds: seq<World>, events: seq<Event>, n: nat)
    requires TimelyRun(worlds, events) && n < |worlds| && !worlds[n].sys.worker.Exited?
    ensures QS.Typed(worlds[n].sys) && QT.InTime(worlds[n].sys)
    decreases n
  {
    RunInv(worlds, events, n);
    if n > 0 {
      RunInv(worlds, events, n - 1);
      RunStep(worlds, events, n - 1);
      var w, e := worlds[n - 1], events[n - 1];
      assert Timely(w, e);
      hide Run, Inv, Apply, Enabled, Timely, QT.InTime;
      if w.sys.worker.Exited? {
        ExitedStays(w, e);
      }
      RunInTime(worlds, events, n - 1);
      StepInTime(w, e);
    }
  }

  /** A sweep, whenever it comes and whatever the requests are doing, leaves the file of a job that
      is queued or being sent, if it was last written less than 48000 seconds before the job was
      accepted and the worker is still there. */
  lemma SweepSparesQueuedFiles(worlds: seq<World>, events: seq<Event>, n: nat, i: nat)
    requires TimelyRun(worlds, events) && n < |events| && events[n] == Swept
    requires !worlds[n].sys.worker.Exited? && QS.Typed(worlds[n].sys)
    requires i < TQ.MAX_TRANSFER_JOBS && QT.Active(worlds[n].sys.q.jobs[i])
    ensures var job := worlds[n].sys.q.jobs[i];
      job.filepath in worlds[n].disk.staging
      && job.createdAt - QT.STAGING_MARGIN_SECONDS < worlds[n].disk.staging[job.filepath].mtime
      ==> job.filepath in worlds[n + 1].disk.staging
          && worlds[n + 1].disk.staging[job.filepath] == worlds[n].disk.staging[job.filepath]
  {
    RunInTime(worlds, events, n);
    RunInv(worlds, events, n);
    RunStep(worlds, events, n);
    hide Run;
    QT.ActiveWait(worlds[n].sys, i);
    hide Inv, QT.InTime, QS.Typed;
  }

  /** And it takes every staged file that was last written 86400 seconds ago or more, and no other. */
  lemma SweptIff(worlds: seq<World>, events: seq<Event>, n: nat, path: string)
    requires Run(worlds, events) && n < |events| && events[n] == Swept
    ensures path in worlds[n + 1].disk.staging <==>
      path in worlds[n].disk.staging && worlds[n].disk.staging[path].mtime + 86400 > worlds[n].sys.now
    ensures path in worlds[n + 1].disk.staging ==>
      worlds[n + 1].disk.staging[path] == worlds[n].disk.staging[path]
  {
    RunStep(worlds, events, n);
    hide Run, QS.Typed;
  }
}
