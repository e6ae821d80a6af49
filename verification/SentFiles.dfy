/** From request to network: what a job's staged file holds while the job is in the table, over every
    run of requests, queue and directories. */
module SentFiles {
  import opened Text
  import opened Storage
  import opened Requests
  import opened RequestGuarantees
  import opened Staging
  import opened StagingGuarantees
  import TQ = TransferQueue
  import QS = QueueSystem
  import QT = QueueTiming
  import ST = StagingTiming
  import Ring

  // ----- one step, one job -----

  /** The same job before and after a step, with the same file. */
  predicate SameJob(a: TQ.Job, b: TQ.Job) {
    && a.inUse && b.inUse && b.jobId == a.jobId && b.filepath == a.filepath && b.createdAt == a.createdAt
    && b.targetIp == a.targetIp && b.targetPort == a.targetPort && b.pairToken == a.pairToken
    && (QT.Active(b) ==> QT.Active(a))
  }

  /** A job with a file to send or that failed to be sent. */
  predicate Held(j: TQ.Job) {
    j.inUse && (j.filepath != "" || QT.Active(j))
  }

  /** This enqueue was accepted and put the job, made out of its request, in slot `i`. */
  predicate MadeBy(w: World, e: Event, i: nat, job: TQ.Job) {
    && e.SendQueued? && e.id in w.reqs && ReadyToQueue(w.reqs[e.id])
    && QS.Typed(w.sys) && SlotTaken(w, e) == Some(i)
    && e.jobId == Some(job.jobId) && job.filepath == w.reqs[e.id].filename && job.createdAt == w.sys.now
    && job.targetIp == e.targetIp && job.targetPort == e.targetPort && job.pairToken == e.pairToken
  }

  lemma TakeKeepsJob(s: QS.Sys, i: nat)
    requires QS.Inv(s) && s.worker.Looping? && i < TQ.MAX_TRANSFER_JOBS
    ensures var a, b := s.q.jobs[i], QS.ApplyTake(s).q.jobs[i]; Held(b) ==> SameJob(a, b)
  {
    QS.TakeCases(s);
    if s.q.count > 0 {
      QS.PopTable(s.q.jobs, Ring.Pending(s.q), s.worker, s.now);
    }
    hide QS.Inv, QS.ApplyTake, Ring.Pending;
  }

  lemma OwnStepKeepsJob(s: QS.Sys, step: QS.Event, i: nat)
    requires QS.Typed(s) && QS.Enabled(s, step) && !step.Enqueued? && !step.Took? && i < TQ.MAX_TRANSFER_JOBS
    requires s.worker.Sending? ==> s.q.jobs[s.worker.slot].status == TQ.InProgress
    ensures var a, b := s.q.jobs[i], QS.Apply(s, step).q.jobs[i]; Held(b) ==> SameJob(a, b)
  {
    hide TQ.Enqueue, TQ.Take, QS.ApplyEnqueue, QS.ApplyTake;
  }

  lemma QueueStepKeepsJob(s: QS.Sys, step: QS.Event, i: nat)
    requires QS.Inv(s) && QS.Enabled(s, step) && !step.Enqueued? && i < TQ.MAX_TRANSFER_JOBS
    ensures var a, b := s.q.jobs[i], QS.Apply(s, step).q.jobs[i]; Held(b) ==> SameJob(a, b)
  {
    if step.Took? {
      TakeKeepsJob(s, i);
      hide QS.Inv, QS.ApplyTake;
    } else {
      if s.worker.Sending? {
        QS.HeldSlot(s);
      }
      hide QS.Inv, QS.Apply;
      OwnStepKeepsJob(s, step, i);
    }
  }

  lemma PrunedSlot(s: QS.Sys, i: nat)
    requires QS.Typed(s) && i < TQ.MAX_TRANSFER_JOBS
    ensures QS.Pruned(s).jobs[i] == s.q.jobs[i] || !QS.Pruned(s).jobs[i].inUse
  {
  }

  lemma EnqueueKeepsJob(w: World, e: Event, i: nat)
    requires Inv(w) && e.SendQueued? && Enabled(w, e) && i < TQ.MAX_TRANSFER_JOBS
    ensures |Queued(w, e).sys.q.jobs| == TQ.MAX_TRANSFER_JOBS
    ensures var a, b := w.sys.q.jobs[i], Queued(w, e).sys.q.jobs[i]; b.inUse ==> SameJob(a, b) || MadeBy(w, e, i, b)
  {
    QueuedCases(w, e);
    PrunedSlot(w.sys, i);
    match SlotTaken(w, e)
    case None =>
      hide Inv, Queued, SendEnqueued;
    case Some(k) =>
      var wp := PrunedWorld(w);
      PushedJobs(wp.sys, k, TQ.NewJob(JobRequest(w.reqs[e.id], e), e.jobId.value, w.sys.now));
      hide Inv, Queued, SendEnqueued, QS.Pushed;
  }

  /** Such a job is either the one that was in the slot, or has just been made. */
  lemma StepKeepsJob(w: World, e: Event, i: nat)
    requires Inv(w) && Enabled(w, e) && i < TQ.MAX_TRANSFER_JOBS
    ensures |Apply(w, e).sys.q.jobs| == TQ.MAX_TRANSFER_JOBS
    ensures var a, b := w.sys.q.jobs[i], Apply(w, e).sys.q.jobs[i];
      Held(b) ==> SameJob(a, b) || MadeBy(w, e, i, b)
  {
    StepInv(w, e);
    if e.SendQueued? {
      EnqueueKeepsJob(w, e, i);
    } else if e.QueueStep? {
      QueueStepKeepsJob(w.sys, e.step, i);
    }
    hide RequestsOk, OwnersOk, JobsOk, QS.Inv, QS.Apply, Queued, SameJob, MadeBy;
    SameJobReflexive(w.sys.q.jobs[i]);
  }

  lemma SameJobReflexive(a: TQ.Job)
    ensures a.inUse ==> SameJob(a, a)
  {
  }

  // ----- one step, one file -----

  /** The file is untouched if it is still there, and stays unless a sweep comes or its job ends. */
  predicate FileKept(w: World, w': World, path: string, stays: bool) {
    && (path in w'.disk.staging ==> path in w.disk.staging && w'.disk.staging[path] == w.disk.staging[path])
    && (stays && path in w.disk.staging ==> path in w'.disk.staging)
  }

  lemma ChunkKeepsFile(w: World, id: nat, chunk: Chunk, path: string, o: Owner)
    requires Inv(w) && Enabled(w, Chunked(id, chunk)) && path != "" && FileOf(w, o) == path && o.ByJob?
    ensures FileKept(w, Update(w, id, IteratePost(w.reqs[id], w.disk, chunk, w.sys.now)), path, true)
  {
    RequestOwns(w, id);
    var r := w.reqs[id];
    IteratePostOk(r, w.disk, chunk, w.sys.now);
    assert FileOf(w, ByRequest(id)) == r.stage.path;
    hide IteratePost, ReqOk, QS.Inv, RequestsOk, JobsOk, OpenedPath;
  }

  lemma UploadKeepsFile(w: World, id: nat, flushed: bool, closed: bool, renamed: bool, path: string, o: Owner)
    requires Inv(w) && Enabled(w, UploadFinished(id, flushed, closed, renamed))
    requires path != "" && FileOf(w, o) == path && o.ByJob?
    ensures var after := FinishUpload(w.reqs[id], w.disk, flushed, closed, renamed, w.sys.now);
      FileKept(w, Update(w, id, after), path, true)
  {
    RequestOwns(w, id);
    FinishUploadOk(w.reqs[id], w.disk, flushed, closed, renamed, w.sys.now);
    assert FileOf(w, ByRequest(id)) == w.reqs[id].stage.path;
    hide FinishUpload, ReqOk, QS.Inv, RequestsOk, JobsOk;
  }

  lemma CompletionKeepsFile(w: World, id: nat, path: string, o: Owner)
    requires Inv(w) && Enabled(w, Completed(id)) && path != "" && FileOf(w, o) == path && o.ByJob?
    ensures FileKept(w, Apply(w, Completed(id)), path, true)
  {
    RequestOwns(w, id);
    assert !w.reqs[id].handedOff ==> FileOf(w, ByRequest(id)) == w.reqs[id].stage.path;
    hide QS.Inv, RequestsOk, JobsOk;
  }

  lemma QueueStepKeepsFile(w: World, step: QS.Event, i: nat)
    requires Inv(w) && Enabled(w, QueueStep(step)) && i < TQ.MAX_TRANSFER_JOBS
    requires SameJob(w.sys.q.jobs[i], QS.Apply(w.sys, step).q.jobs[i]) && w.sys.q.jobs[i].filepath != ""
    ensures FileKept(w, Apply(w, QueueStep(step)), w.sys.q.jobs[i].filepath, true)
  {
    var path := w.sys.q.jobs[i].filepath;
    assert FileOf(w, ByJob(i)) == path;
    if step.Finished? {
      QS.HeldSlot(w.sys);
      var k := w.sys.worker.slot;
      assert FileOf(w, ByJob(k)) == w.sys.q.jobs[k].filepath;
    }
    hide QS.Inv, RequestsOk, JobsOk, QS.Apply;
  }

  /** Pruning deletes no file of a job it leaves. */
  lemma PruningKeepsFile(w: World, path: string, o: Owner)
    requires Inv(w) && path != "" && FileOf(w, o) == path
    requires o.ByJob? ==> FileOf(PrunedWorld(w), o) == path
    ensures FileKept(w, PrunedWorld(w), path, true)
  {
    hide RequestsOk, JobsOk;
    forall k | 0 <= k < TQ.MAX_TRANSFER_JOBS && w.sys.q.count < TQ.MAX_TRANSFER_JOBS
                 && TQ.Prunable(w.sys.q.jobs[k], w.sys.now)
      ensures w.sys.q.jobs[k].filepath != path
    {
      assert FileOf(w, ByJob(k)) == w.sys.q.jobs[k].filepath;
      assert FileOf(PrunedWorld(w), ByJob(k)) == "";
    }
  }

  /** Slot and disk after an enqueue, by its outcome. */
  lemma EnqueueOutcome(w: World, e: Event, i: nat)
    requires QS.Typed(w.sys) && e.SendQueued? && e.id in w.reqs && i < TQ.MAX_TRANSFER_JOBS
    ensures var wp, w', r := PrunedWorld(w), Queued(w, e), w.reqs[e.id];
      && |wp.sys.q.jobs| == |w'.sys.q.jobs| == TQ.MAX_TRANSFER_JOBS
      && match SlotTaken(w, e)
         case None => w'.sys.q.jobs[i] == wp.sys.q.jobs[i] && w'.disk == SendEnqueued(r, wp.disk, false).1
         case Some(k) =>
           && w'.disk == wp.disk
           && if i == k then w'.sys.q.jobs[i].filepath == r.filename else w'.sys.q.jobs[i] == wp.sys.q.jobs[i]
  {
    QueuedCases(w, e);
    match SlotTaken(w, e)
    case None =>
      hide Queued, SendEnqueued;
    case Some(k) =>
      var wp := PrunedWorld(w);
      PushedJobs(wp.sys, k, TQ.NewJob(JobRequest(w.reqs[e.id], e), e.jobId.value, w.sys.now));
      hide Queued, QS.Pushed;
  }

  lemma KeptThrough(w: World, w1: World, w2: World, path: string)
    requires FileKept(w, w1, path, true) && FileKept(w1, w2, path, true)
    ensures FileKept(w, w2, path, true)
  {
  }

  /** Who owned the file of a job after an enqueue: the request it came from, or the job itself. */
  lemma EnqueueOwner(w: World, e: Event, i: nat)
    requires Inv(w) && e.SendQueued? && Enabled(w, e) && i < TQ.MAX_TRANSFER_JOBS
    requires |Queued(w, e).sys.q.jobs| == TQ.MAX_TRANSFER_JOBS
    requires Queued(w, e).sys.q.jobs[i].inUse && Queued(w, e).sys.q.jobs[i].filepath != ""
    ensures var path, mine := Queued(w, e).sys.q.jobs[i].filepath, w.reqs[e.id].stage.path;
      && FileOf(w, ByRequest(e.id)) == mine
      && if SlotTaken(w, e) == Some(i) then path == mine
         else path != mine && FileOf(w, ByJob(i)) == path && FileOf(PrunedWorld(w), ByJob(i)) == path
  {
    EnqueueOutcome(w, e, i);
    PrunedSlot(w.sys, i);
    RequestOwns(w, e.id);
    hide Queued, QS.Inv, JobsOk;
    assert FileOf(w, ByRequest(e.id)) == w.reqs[e.id].stage.path;
    if SlotTaken(w, e) != Some(i) {
      assert FileOf(w, ByJob(i)) == Queued(w, e).sys.q.jobs[i].filepath;
    }
  }

  lemma EnqueueKeepsFile(w: World, e: Event, i: nat)
    requires Inv(w) && e.SendQueued? && Enabled(w, e) && i < TQ.MAX_TRANSFER_JOBS
    requires |Queued(w, e).sys.q.jobs| == TQ.MAX_TRANSFER_JOBS
    requires Queued(w, e).sys.q.jobs[i].inUse && Queued(w, e).sys.q.jobs[i].filepath != ""
    ensures FileKept(w, Queued(w, e), Queued(w, e).sys.q.jobs[i].filepath, true)
  {
    EnqueueOutcome(w, e, i);
    EnqueueOwner(w, e, i);
    var path := Queued(w, e).sys.q.jobs[i].filepath;
    hide Inv, Enabled, Queued, PrunedWorld, SlotTaken, FileOf;
    if SlotTaken(w, e) == Some(i) {
      PruningKeepsFile(w, path, ByRequest(e.id));
    } else {
      PruningKeepsFile(w, path, ByJob(i));
      KeptThrough(w, PrunedWorld(w), Queued(w, e), path);
    }
  }

  /** What one step does to the file of a job that has one after it: nothing, except that a sweep
      may take it. */
  lemma StepKeepsFile(w: World, e: Event, i: nat)
    requires Inv(w) && Enabled(w, e) && i < TQ.MAX_TRANSFER_JOBS
    requires |Apply(w, e).sys.q.jobs| == TQ.MAX_TRANSFER_JOBS
    requires var a, b := w.sys.q.jobs[i], Apply(w, e).sys.q.jobs[i];
      b.inUse && b.filepath != "" && (SameJob(a, b) || MadeBy(w, e, i, b))
    ensures FileKept(w, Apply(w, e), Apply(w, e).sys.q.jobs[i].filepath, e != Swept)
  {
    var path := Apply(w, e).sys.q.jobs[i].filepath;
    if e.SendQueued? {
      hide Inv, Enabled, Queued, SameJob, MadeBy;
      EnqueueKeepsFile(w, e, i);
    } else {
      assert FileOf(w, ByJob(i)) == path;
      match e
      case Chunked(id, chunk) =>
        hide Inv, Enabled, IteratePost;
        ChunkKeepsFile(w, id, chunk, path, ByJob(i));
      case UploadFinished(id, flushed, closed, renamed) =>
        hide Inv, Enabled, FinishUpload;
        UploadKeepsFile(w, id, flushed, closed, renamed, path, ByJob(i));
      case Completed(id) =>
        hide Inv, Enabled, Complete;
        CompletionKeepsFile(w, id, path, ByJob(i));
      case QueueStep(step) =>
        hide Inv, Enabled;
        QueueStepKeepsFile(w, step, i);
      case _ =>
        hide Inv, Enabled;
    }
  }

  // ----- over whole runs -----

  /** The enqueue by which event `m` made this job, and its request's one authorization. */
  ghost predicate Origin(worlds: seq<World>, events: seq<Event>, m: nat, i: nat, job: TQ.Job) {
    && m < |events| && m < |worlds| && MadeBy(worlds[m], events[m], i, job)
    && LogOf(events, events[m].id, m).auth == Some(Granted)
  }

  /** These are the request's file bytes, without those that came before the first named part. */
  predicate BodyOf(log: Log, content: string) {
    |content| <= MAX_FILE_SIZE && log.unnamed + content == log.bytes
  }

  lemma RequestBody(w: World, id: nat, log: Log)
    requires Inv(w) && id in w.reqs && ReadyToQueue(w.reqs[id]) && Follows(w.reqs[id], log)
    ensures log.auth == Some(Granted)
    ensures var path := w.reqs[id].filename; path in w.disk.staging ==> BodyOf(log, w.disk.staging[path].content)
  {
    RequestOwns(w, id);
    hide Inv;
  }

  /** A file written less than 48000 seconds before its job was accepted is in the later world as it
      was in the earlier one. */
  predicate StillThere(earlier: World, later: World, job: TQ.Job) {
    var path := job.filepath;
    path in earlier.disk.staging
    && job.createdAt - QT.STAGING_MARGIN_SECONDS < earlier.disk.staging[path].mtime
    ==> path in later.disk.staging && later.disk.staging[path] == earlier.disk.staging[path]
  }

  lemma StillThereNext(w0: World, w: World, w': World, job: TQ.Job, stays: bool)
    requires StillThere(w0, w, job) && FileKept(w, w', job.filepath, stays)
    requires stays || StillThere(w, w', job)
    ensures StillThere(w0, w', job)
  {
  }

  lemma StillThereAtOnce(w: World, w': World, job: TQ.Job)
    requires FileKept(w, w', job.filepath, true)
    ensures StillThere(w, w', job)
  {
  }

  lemma SameStillThere(w: World, w': World, a: TQ.Job, b: TQ.Job)
    requires a.filepath == b.filepath && a.createdAt == b.createdAt && StillThere(w, w', a)
    ensures StillThere(w, w', b)
  {
  }

  /** One step of a timely run takes no recent file from a job that is queued or being sent. */
  lemma TimelyStep(worlds: seq<World>, events: seq<Event>, n: nat, i: nat)
    requires ST.TimelyRun(worlds, events) && n < |events| && |worlds| == |events| + 1 && i < TQ.MAX_TRANSFER_JOBS
    requires Inv(worlds[n]) && |worlds[n].sys.q.jobs| == TQ.MAX_TRANSFER_JOBS
    requires !worlds[n].sys.worker.Exited? && QT.Active(worlds[n].sys.q.jobs[i]) && events[n] == Swept
    ensures StillThere(worlds[n], worlds[n + 1], worlds[n].sys.q.jobs[i])
  {
    hide ST.TimelyRun, OwnersOk, RequestsOk, JobsOk;
    ST.SweepSparesQueuedFiles(worlds, events, n, i);
  }

  lemma NotYetGone(w: World, e: Event)
    requires Inv(w) && Enabled(w, e) && !Apply(w, e).sys.worker.Exited?
    ensures !w.sys.worker.Exited?
  {
    hide Apply, Enabled, OwnersOk, RequestsOk, JobsOk;
    if w.sys.worker.Exited? {
      ST.ExitedStays(w, e);
    }
  }

  /** In every run the job in a slot was made by some enqueue of an authorized request, and its file,
      while it is staged, holds that request's file bytes. In a timely run a file that was recent
      when the job was accepted is staged as long as the job is queued or being sent. */
  lemma {:induction false} JobFileIsTheBody(worlds: seq<World>, events: seq<Event>, n: nat, i: nat) returns (m: nat)
    requires Run(worlds, events) && n < |worlds| && i < TQ.MAX_TRANSFER_JOBS
    requires |worlds[n].sys.q.jobs| == TQ.MAX_TRANSFER_JOBS
    requires worlds[n].sys.q.jobs[i].inUse && worlds[n].sys.q.jobs[i].filepath != ""
    ensures m < n && Origin(worlds, events, m, i, worlds[n].sys.q.jobs[i])
    ensures var path := worlds[n].sys.q.jobs[i].filepath;
      path in worlds[n].disk.staging ==>
        BodyOf(LogOf(events, events[m].id, m), worlds[n].disk.staging[path].content)
    ensures ST.TimelyRun(worlds, events) && !worlds[n].sys.worker.Exited? && QT.Active(worlds[n].sys.q.jobs[i]) ==>
      StillThere(worlds[m], worlds[n], worlds[n].sys.q.jobs[i])
    decreases n
  {
    assert n > 0;
    RunStep(worlds, events, n - 1);
    RunInv(worlds, events, n - 1);
    var w, e, job := worlds[n - 1], events[n - 1], worlds[n].sys.q.jobs[i];
    SizedJobs(w);
    hide Run, Inv, Enabled, Apply, SameJob, MadeBy, Follows, LogOf, BodyOf, FileKept, ST.TimelyRun, StillThere;
    StepKeepsJob(w, e, i);
    StepKeepsFile(w, e, i);
    KeptContent(w, worlds[n], job.filepath, e != Swept);
    if MadeBy(w, e, i, job) {
      m := n - 1;
      MadeReady(w, e, i, job);
      RunFollows(worlds, events, n - 1, e.id);
      RequestBody(w, e.id, LogOf(events, e.id, m));
      StillThereAtOnce(w, worlds[n], job);
    } else {
      SameFile(w.sys.q.jobs[i], job);
      m := JobFileIsTheBody(worlds, events, n - 1, i);
      SameOrigin(worlds, events, m, i, w.sys.q.jobs[i], job);
      if ST.TimelyRun(worlds, events) && !worlds[n].sys.worker.Exited? && QT.Active(job) {
        NotYetGone(w, e);
        if e == Swept {
          TimelyStep(worlds, events, n - 1, i);
          SameStillThere(w, worlds[n], w.sys.q.jobs[i], job);
        }
        SameStillThere(worlds[m], w, w.sys.q.jobs[i], job);
        StillThereNext(worlds[m], w, worlds[n], job, e != Swept);
      }
    }
  }

  lemma SizedJobs(w: World)
    requires Inv(w)
    ensures |w.sys.q.jobs| == TQ.MAX_TRANSFER_JOBS
  {
  }

  lemma KeptContent(w: World, w': World, path: string, stays: bool)
    requires FileKept(w, w', path, stays)
    ensures path in w'.disk.staging ==> path in w.disk.staging && w'.disk.staging[path] == w.disk.staging[path]
    ensures stays && path in w.disk.staging ==> path in w'.disk.staging
  {
  }

  lemma MadeReady(w: World, e: Event, i: nat, job: TQ.Job)
    requires MadeBy(w, e, i, job)
    ensures e.SendQueued? && e.id in w.reqs && ReadyToQueue(w.reqs[e.id]) && job.filepath == w.reqs[e.id].filename
  {
  }

  lemma SameFile(a: TQ.Job, b: TQ.Job)
    requires SameJob(a, b)
    ensures a.inUse && a.filepath == b.filepath && a.createdAt == b.createdAt && (QT.Active(b) ==> QT.Active(a))
  {
  }

  lemma SameOrigin(worlds: seq<World>, events: seq<Event>, m: nat, i: nat, a: TQ.Job, b: TQ.Job)
    requires SameJob(a, b) && Origin(worlds, events, m, i, a)
    ensures Origin(worlds, events, m, i, b)
  {
    hide LogOf;
  }

  lemma MadeHasFile(w: World, e: Event, i: nat, job: TQ.Job)
    requires Inv(w) && MadeBy(w, e, i, job)
    ensures job.filepath != ""
  {
    RequestOwns(w, e.id);
    hide Inv, SlotTaken;
  }

  /** A job keeps its file name as long as it is queued or being sent. */
  lemma {:induction false} ActiveJobHasFile(worlds: seq<World>, events: seq<Event>, n: nat, i: nat)
    requires Run(worlds, events) && n < |worlds| && i < TQ.MAX_TRANSFER_JOBS
    requires |worlds[n].sys.q.jobs| == TQ.MAX_TRANSFER_JOBS
    requires worlds[n].sys.q.jobs[i].inUse && QT.Active(worlds[n].sys.q.jobs[i])
    ensures worlds[n].sys.q.jobs[i].filepath != ""
    decreases n
  {
    assert n > 0;
    RunStep(worlds, events, n - 1);
    RunInv(worlds, events, n - 1);
    var w, e, job := worlds[n - 1], events[n - 1], worlds[n].sys.q.jobs[i];
    SizedJobs(w);
    hide Run, Inv, Enabled, Apply, SameJob, MadeBy;
    StepKeepsJob(w, e, i);
    if MadeBy(w, e, i, job) {
      MadeHasFile(w, e, i, job);
    } else {
      SameFile(w.sys.q.jobs[i], job);
      ActiveJobHasFile(worlds, events, n - 1, i);
    }
  }

  lemma SlotBeingSent(w: World)
    requires Inv(w) && w.sys.worker.Sending?
    ensures |w.sys.q.jobs| == TQ.MAX_TRANSFER_JOBS && w.sys.worker.slot < TQ.MAX_TRANSFER_JOBS
    ensures w.sys.q.jobs[w.sys.worker.slot].inUse && QT.Active(w.sys.q.jobs[w.sys.worker.slot])
  {
    QS.HeldSlot(w.sys);
  }

  /** Main result: whatever the worker is sending was made by an accepted enqueue of an authorized
      request, and its file, while it is staged, holds that request's file bytes; in a timely run it
      is staged throughout the send, if it was recent when the job was accepted. */
  lemma SendCarriesTheBody(worlds: seq<World>, events: seq<Event>, n: nat) returns (m: nat)
    requires Run(worlds, events) && n < |worlds| && worlds[n].sys.worker.Sending?
    ensures worlds[n].sys.worker.slot < |worlds[n].sys.q.jobs|
    ensures var job := worlds[n].sys.q.jobs[worlds[n].sys.worker.slot];
      && m < n && Origin(worlds, events, m, worlds[n].sys.worker.slot, job) && job.filepath != ""
      && (job.filepath in worlds[n].disk.staging ==>
            BodyOf(LogOf(events, events[m].id, m), worlds[n].disk.staging[job.filepath].content))
      && (ST.TimelyRun(worlds, events) ==> StillThere(worlds[m], worlds[n], job))
  {
    RunInv(worlds, events, n);
    SlotBeingSent(worlds[n]);
    hide Run, Inv, LogOf, BodyOf, ST.TimelyRun, StillThere, Origin;
    ActiveJobHasFile(worlds, events, n, worlds[n].sys.worker.slot);
    m := JobFileIsTheBody(worlds, events, n, worlds[n].sys.worker.slot);
  }

  // ----- one origin -----

  predicate Known(w: World, jobId: string) {
    exists a :: 0 <= a < |w.sys.accepted| && w.sys.accepted[a].jobId == jobId
  }

  lemma MadeIsKnown(w: World, e: Event, i: nat, job: TQ.Job)
    requires Enabled(w, e) && MadeBy(w, e, i, job)
    ensures !Known(w, job.jobId) && Known(Apply(w, e), job.jobId)
  {
    QueuedCases(w, e);
    var made := TQ.NewJob(JobRequest(w.reqs[e.id], e), e.jobId.value, w.sys.now);
    var wp := PrunedWorld(w);
    hide Queued, SendEnqueued;
    assert Queued(w, e).sys.accepted == w.sys.accepted + [made];
    assert Queued(w, e).sys.accepted[|w.sys.accepted|] == made;
  }

  lemma StaysKnown(w: World, e: Event, jobId: string)
    requires QS.Typed(w.sys) && Enabled(w, e) && Known(w, jobId)
    ensures Known(Apply(w, e), jobId)
  {
    hide TQ.Enqueue, TQ.Take, TQ.Progress, TQ.Finish;
    var a :| 0 <= a < |w.sys.accepted| && w.sys.accepted[a].jobId == jobId;
    assert w.sys.accepted <= Apply(w, e).sys.accepted;
    assert Apply(w, e).sys.accepted[a] == w.sys.accepted[a];
  }

  lemma {:induction false} StaysKnownLater(worlds: seq<World>, events: seq<Event>, m: nat, n: nat, jobId: string)
    requires Run(worlds, events) && m <= n < |worlds| && Known(worlds[m], jobId)
    ensures Known(worlds[n], jobId)
    decreases n
  {
    if m < n {
      RunStep(worlds, events, n - 1);
      hide Run, Enabled, Apply, Known;
      StaysKnownLater(worlds, events, m, n - 1, jobId);
      StaysKnown(worlds[n - 1], events[n - 1], jobId);
    }
  }

  /** A job id names its enqueue: no two events of a run made jobs with one id. */
  lemma OriginIsUnique(worlds: seq<World>, events: seq<Event>, m1: nat, m2: nat, i: nat, j: nat, a: TQ.Job, b: TQ.Job)
    requires Run(worlds, events) && Origin(worlds, events, m1, i, a) && Origin(worlds, events, m2, j, b)
    requires a.jobId == b.jobId
    ensures m1 == m2
  {
    RunStep(worlds, events, m1);
    RunStep(worlds, events, m2);
    hide Run, Enabled, Apply, Known, MadeBy, LogOf;
    MadeIsKnown(worlds[m1], events[m1], i, a);
    MadeIsKnown(worlds[m2], events[m2], j, b);
    if m1 < m2 {
      StaysKnownLater(worlds, events, m1 + 1, m2, a.jobId);
    } else if m2 < m1 {
      StaysKnownLater(worlds, events, m2 + 1, m1, a.jobId);
    }
  }
}
