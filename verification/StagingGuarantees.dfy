/** What requests, queue and disk guarantee together, over every run of their interleaved steps. */
module StagingGuarantees {
  import opened Text
  import opened Storage
  import opened Requests
  import opened RequestGuarantees
  import opened Staging
  import TQ = TransferQueue
  import QS = QueueSystem
  import Ring

  // ----- conservation of staged files -----

  /** Main result: in every reachable state each staged file has exactly one owner, which is an
      unfinished request's stage or a job that is queued, in progress or failed. */
  lemma EveryStagedFileHasOneOwner(worlds: seq<World>, events: seq<Event>, n: nat, path: string)
    returns (owner: Owner)
    requires Run(worlds, events) && n < |worlds| && path in worlds[n].disk.staging
    ensures FileOf(worlds[n], owner) == path
    ensures forall o :: FileOf(worlds[n], o) == path ==> o == owner
    ensures match owner
      case ByRequest(id) => id in worlds[n].reqs && !worlds[n].reqs[id].handedOff
      case ByJob(slot) =>
        && slot < TQ.MAX_TRANSFER_JOBS && slot < |worlds[n].sys.q.jobs|
        && worlds[n].sys.q.jobs[slot].status in {TQ.Queued, TQ.InProgress, TQ.Failed}
  {
    RunInv(worlds, events, n);
    var w := worlds[n];
    owner :| FileOf(w, owner) == path;
    if owner.ByJob? {
      JobStatus(w.sys, owner.slot);
    }
    hide QS.Inv, RequestsOk;
  }

  lemma JobStatus(s: QS.Sys, i: nat)
    requires QS.Inv(s) && i < |s.q.jobs| && s.q.jobs[i].inUse
    ensures i < TQ.MAX_TRANSFER_JOBS && s.q.jobs[i].status != TQ.Unused
  {
    assert QS.SlotOk(s.q.jobs[i], i in Ring.Pending(s.q), QS.InFlight(s.worker, i));
  }

  /** The queued job in this slot owns the file and nobody else does. */
  ghost predicate SoleOwner(w: World, path: string, slot: nat) {
    && slot < |w.sys.q.jobs| && w.sys.q.jobs[slot].status == TQ.Queued
    && FileOf(w, ByJob(slot)) == path
    && forall o :: FileOf(w, o) == path ==> o == ByJob(slot)
  }

  lemma SoleOwnerFrom(w: World, path: string, slot: nat)
    requires OwnersOk(w) && slot < |w.sys.q.jobs| && w.sys.q.jobs[slot].status == TQ.Queued
    requires path != "" && FileOf(w, ByJob(slot)) == path
    ensures SoleOwner(w, path, slot)
  {
    forall o | FileOf(w, o) == path ensures o == ByJob(slot) {
    }
  }

  /** An enqueue either hands the request's file to one queued job, which nobody else owns, or
      deletes it. */
  lemma EnqueueSettlesFile(worlds: seq<World>, events: seq<Event>, n: nat)
    requires Run(worlds, events) && n < |events| && events[n].SendQueued?
    ensures events[n].id in worlds[n].reqs && events[n].id in worlds[n + 1].reqs
    ensures var id, w' := events[n].id, worlds[n + 1];
      var path := worlds[n].reqs[id].stage.path;
      path != "" &&
      if w'.reqs[id].handedOff then exists slot :: SoleOwner(w', path, slot)
      else path !in w'.disk.staging
  {
    hide Run, QS.Inv, RequestsOk, JobsOk, OwnersOk, SoleOwner, Queued;
    RunStep(worlds, events, n);
    RunInv(worlds, events, n);
    RunInv(worlds, events, n + 1);
    QueuedSettles(worlds[n], events[n]);
  }

  lemma QueuedSettles(w: World, e: Event)
    requires Inv(w) && e.SendQueued? && Enabled(w, e) && OwnersOk(Queued(w, e))
    ensures var w', path := Queued(w, e), w.reqs[e.id].stage.path;
      e.id in w'.reqs && path != "" &&
      if w'.reqs[e.id].handedOff then exists slot :: SoleOwner(w', path, slot)
      else path !in w'.disk.staging
  {
    RequestOwns(w, e.id);
    PrunedWorldInv(w);
    QueuedCases(w, e);
    var wp, w', r := PrunedWorld(w), Queued(w, e), w.reqs[e.id];
    match SlotTaken(w, e)
    case None =>
      hide Inv, PrunedWorld, Queued, OwnersOk;
      RefusedInv(wp, e.id);
    case Some(i) =>
      var job := TQ.NewJob(JobRequest(r, e), e.jobId.value, w.sys.now);
      PushedJobs(wp.sys, i, job);
      hide Inv, PrunedWorld, Queued, QS.Pushed, SlotTaken;
      assert FileOf(w', ByJob(i)) == r.stage.path;
      SoleOwnerFrom(w', r.stage.path, i);
  }

  /** When a request ends without having saved its file, the file is gone; when an upload was
      committed, it has left the staging directory for the downloads. */
  lemma EndedRequestLeavesNothing(worlds: seq<World>, events: seq<Event>, n: nat)
    requires Run(worlds, events) && n < |events|
    ensures events[n].Completed? ==>
      var id := events[n].id;
      id in worlds[n].reqs && id !in worlds[n + 1].reqs
      && (!worlds[n].reqs[id].fileSaved ==> worlds[n].reqs[id].stage.path !in worlds[n + 1].disk.staging)
      && (worlds[n].reqs[id].fileSaved && worlds[n].reqs[id].stage.path != "" ==> worlds[n].reqs[id].handedOff)
    ensures var e, w' := events[n], worlds[n + 1];
      e.UploadFinished? && e.id in w'.reqs && w'.reqs[e.id].fileSaved ==>
      events[n].id in worlds[n].reqs
      && worlds[n].reqs[events[n].id].stage.path !in worlds[n + 1].disk.staging
      && worlds[n + 1].reqs[events[n].id].filename in worlds[n + 1].disk.downloads
  {
    RunInv(worlds, events, n);
    RunStep(worlds, events, n);
    hide Run;
    var w, e := worlds[n], events[n];
    if e.Completed? {
      RequestOwns(w, e.id);
      hide Inv;
    } else if e.UploadFinished? {
      RequestOwns(w, e.id);
      FinishUploadOk(w.reqs[e.id], w.disk, e.flushed, e.closed, e.renamed, w.sys.now);
      hide Inv, FinishUpload, ReqOk;
    }
  }

  // ----- when a job's file goes -----

  /** A job that ends gives up its staged file then and there exactly when it was sent. */
  lemma FinishedFileGoneIff(worlds: seq<World>, events: seq<Event>, n: nat)
    requires Run(worlds, events) && n < |events| && events[n].QueueStep? && events[n].step.Finished?
    ensures QS.Typed(worlds[n].sys) && worlds[n].sys.worker.Sending?
    ensures var path := worlds[n].sys.q.jobs[worlds[n].sys.worker.slot].filepath;
      path in worlds[n].disk.staging ==> (path !in worlds[n + 1].disk.staging <==> events[n].step.sent)
  {
    RunInv(worlds, events, n);
    RunStep(worlds, events, n);
    hide Run;
    QS.HeldSlot(worlds[n].sys);
    hide QS.Inv, RequestsOk, JobsOk, QS.Apply;
  }

  /** The file of a failed job goes with the first enqueue that comes 3600 seconds later or more,
      whatever becomes of that enqueue. */
  lemma EnqueueDropsOldFiles(worlds: seq<World>, events: seq<Event>, n: nat, i: nat)
    requires Run(worlds, events) && n < |events| && events[n].SendQueued?
    requires i < |worlds[n].sys.q.jobs| && worlds[n].sys.q.jobs[i].inUse
    requires worlds[n].sys.q.jobs[i].status in {TQ.Completed, TQ.Failed}
    requires worlds[n].sys.q.jobs[i].updatedAt + 3600 <= worlds[n].sys.now
    ensures worlds[n].sys.q.jobs[i].filepath !in worlds[n + 1].disk.staging
  {
    RunInv(worlds, events, n);
    RunStep(worlds, events, n);
    hide Run;
    RingHasRoom(worlds[n].sys, i);
    var w, e := worlds[n], events[n];
    hide QS.Inv, RequestsOk, JobsOk, QS.ApplyEnqueue, TQ.Enqueue;
    assert w.sys.q.jobs[i].filepath != "" ==>
      w.sys.q.jobs[i].filepath in TQ.PrunedFiles(w.sys.q.jobs, TQ.MAX_TRANSFER_JOBS, w.sys.now);
  }

  lemma RingHasRoom(s: QS.Sys, i: nat)
    requires QS.Inv(s) && i < |s.q.jobs| && TQ.Prunable(s.q.jobs[i], s.now)
    ensures i < TQ.MAX_TRANSFER_JOBS && s.q.count < TQ.MAX_TRANSFER_JOBS
  {
    assert QS.SlotOk(s.q.jobs[i], i in Ring.Pending(s.q), QS.InFlight(s.worker, i));
    Ring.Pigeonhole(Ring.Pending(s.q), TQ.MAX_TRANSFER_JOBS);
  }

  // ----- what a request's callbacks have been told so far -----

  /** Since the request began: its first authorization outcome, whether a named file part has
      begun, the file bytes that came before that, and all file bytes. */
  datatype Log = Log(auth: Option<Auth>, named: bool, unnamed: string, bytes: string)

  function LogStep(log: Log, e: Event, id: nat): Log {
    match e
    case Began(k, _) => if k == id then Log(None, false, "", "") else log
    case Authorized(k, auth) => if k == id && log.auth.None? then log.(auth := Some(auth)) else log
    case Chunked(k, FileChunk(filename, data, _, _, _)) =>
      if k != id then log
      else if log.named || filename.Some? then log.(named := true, bytes := log.bytes + data)
      else log.(unnamed := log.unnamed + data, bytes := log.bytes + data)
    case _ => log
  }

  function LogOf(events: seq<Event>, id: nat, n: nat): Log
    requires n <= |events|
  {
    if n == 0 then Log(None, false, "", "") else LogStep(LogOf(events, id, n - 1), events[n - 1], id)
  }

  /** A request's state against its log; the bytes matter only while no error is set. */
  predicate Follows(r: Req, log: Log) {
    && (r.authChecked <==> log.auth.Some?)
    && (r.authorized <==> log.auth == Some(Granted))
    && (!Failed(r) ==>
          && (r.inProgress <==> log.named)
          && r.ignored == log.unnamed && r.ignored + r.received == log.bytes)
  }

  lemma ChunkFollows(r: Req, d: Disk, c: Chunk, now: int, log: Log)
    requires ReqOk(r, d) && !r.finished && Follows(r, log)
    ensures Follows(IteratePost(r, d, c, now).0, LogStep(log, Chunked(0, c), 0))
  {
    hide ReqOk, Open, Write, SafeName, StagingPath;
    if c.FileChunk? && !Failed(r) {
      ChunkBytes(r.ignored, r.received, c.data);
      OpenWhileReceiving(r, d);
      if c.filename.Some? {
        OpenKeeps(d, c.filename.value, c.token, c.created, now);
      }
    }
  }

  lemma ChunkBytes(ignored: string, received: string, data: string)
    ensures ignored + (received + data) == ignored + received + data
    ensures received == "" ==> (ignored + data) + received == ignored + received + data
    ensures data == "" ==> ignored + data == ignored && ignored + received + data == ignored + received
  {
  }

  lemma OpenWhileReceiving(r: Req, d: Disk)
    requires ReqOk(r, d) && !r.finished && !Failed(r)
    ensures (r.inProgress <==> r.stage.open) && !r.stage.sealed && (!r.stage.open ==> r.received == "")
  {
  }

  lemma OtherFollows(r: Req, log: Log, auth: Auth)
    requires Follows(r, log)
    ensures Follows(Requests.Authorize(r, auth), LogStep(log, Authorized(0, auth), 0))
  {
  }

  lemma FinishFollows(r: Req, d: Disk, log: Log, now: int, flushed: bool, closed: bool, renamed: bool,
                      refusal: Option<nat>)
    requires Follows(r, log) && (refusal.Some? ==> refusal.value >= 400)
    ensures Follows(FinishUpload(r, d, flushed, closed, renamed, now).0, log)
    ensures Follows(SealForSend(r, refusal, flushed, closed).0, log)
    ensures Follows(SendEnqueued(r, d, true).0, log) && Follows(SendEnqueued(r, d, false).0, log)
  {
    hide DownloadPath;
  }

  lemma LogStepId(log: Log, e: Event, id: nat)
    ensures e.Chunked? && e.id == id ==> LogStep(log, e, id) == LogStep(log, Chunked(0, e.chunk), 0)
    ensures e.Authorized? && e.id == id ==> LogStep(log, e, id) == LogStep(log, Authorized(0, e.auth), 0)
    ensures !e.Chunked? && !e.Authorized? && !(e.Began? && e.id == id) ==> LogStep(log, e, id) == log
    ensures (e.Chunked? || e.Authorized?) && e.id != id ==> LogStep(log, e, id) == log
    ensures e.Began? && e.id == id ==> LogStep(log, e, id) == Log(None, false, "", "")
  {
  }

  lemma StepFollows(w: World, e: Event, id: nat, log: Log)
    requires Inv(w) && Enabled(w, e) && (id in w.reqs ==> Follows(w.reqs[id], log))
    requires id in Apply(w, e).reqs
    ensures Follows(Apply(w, e).reqs[id], LogStep(log, e, id))
  {
    LogStepId(log, e, id);
    if id in w.reqs {
      RequestOwns(w, id);
    }
    hide Inv, LogStep, QS.ApplyEnqueue, TQ.Enqueue;
    match e
    case Chunked(k, chunk) =>
      hide Follows, ReqOk, IteratePost;
      if k == id {
        ChunkFollows(w.reqs[id], w.disk, chunk, w.sys.now, log);
      }
    case Authorized(k, auth) =>
      hide Follows;
      if k == id {
        OtherFollows(w.reqs[id], log, auth);
      }
    case UploadFinished(k, flushed, closed, renamed) =>
      hide Follows, FinishUpload;
      if k == id {
        FinishFollows(w.reqs[id], w.disk, log, w.sys.now, flushed, closed, renamed, None);
      }
    case SendSealed(k, refusal, flushed, closed) =>
      hide Follows, SealForSend;
      if k == id {
        FinishFollows(w.reqs[id], w.disk, log, w.sys.now, flushed, closed, true, refusal);
      }
    case SendQueued(k, _, _, _, _) =>
      hide Follows, SendEnqueued;
      if k == id {
        var pruned := Deleting(w.disk, TQ.EnqueueDeletes(w.sys.q, w.sys.now));
        FinishFollows(w.reqs[id], pruned, log, w.sys.now, true, true, true, None);
      }
    case _ =>
  }

  /** In every run a request's state is determined by its callbacks as the log sums them up. */
  lemma {:induction false} RunFollows(worlds: seq<World>, events: seq<Event>, n: nat, id: nat)
    requires Run(worlds, events) && n < |worlds| && id in worlds[n].reqs
    ensures Follows(worlds[n].reqs[id], LogOf(events, id, n))
    decreases n
  {
    hide Inv, Enabled, Apply, StepAt, Follows, LogStep;
    if n > 0 {
      RunInv(worlds, events, n - 1);
      RunStep(worlds, events, n - 1);
      if id in worlds[n - 1].reqs {
        RunFollows(worlds, events, n - 1, id);
      }
      StepFollows(worlds[n - 1], events[n - 1], id, LogOf(events, id, n - 1));
    }
  }

  // ----- what is kept -----

  /** Main result for uploads, whatever the chunking and whoever else is active: a file is committed
      only by a request whose one authorization check granted it and which has no error, the
      download holds at most 100 MiB, and it is the request's file bytes without those that came
      before the first named part; so it is all of them exactly when none did. */
  lemma CommittedFileIsTheBody(worlds: seq<World>, events: seq<Event>, n: nat)
    requires Run(worlds, events) && n < |events| && events[n].UploadFinished?
    requires events[n].id in worlds[n + 1].reqs && worlds[n + 1].reqs[events[n].id].fileSaved
    ensures var id := events[n].id;
      var log, path := LogOf(events, id, n), worlds[n + 1].reqs[id].filename;
      && id in worlds[n].reqs && !Failed(worlds[n].reqs[id]) && log.auth == Some(Granted)
      && path in worlds[n + 1].disk.downloads
      && var content := worlds[n + 1].disk.downloads[path].content;
         && |content| <= MAX_FILE_SIZE
         && log.unnamed + content == log.bytes
         && (content == log.bytes <==> log.unnamed == "")
  {
    RunInv(worlds, events, n);
    RunStep(worlds, events, n);
    hide Run;
    var w, e := worlds[n], events[n];
    RequestOwns(w, e.id);
    RunFollows(worlds, events, n, e.id);
    FinishUploadOk(w.reqs[e.id], w.disk, e.flushed, e.closed, e.renamed, w.sys.now);
    hide Inv, FinishUpload, ReqOk, LogOf;
    var log := LogOf(events, e.id, n);
    PrefixGone(log.unnamed, w.reqs[e.id].received);
  }

  lemma PrefixGone(a: string, b: string)
    ensures b == a + b <==> a == ""
  {
    assert |a + b| == |a| + |b|;
    assert a == "" ==> a + b == b;
  }

  /** The same for sends: what is sealed for the queue comes from an authorized request without
      error, and the staged file, unless a sweep has taken it, holds the request's file bytes. */
  lemma SealedFileIsTheBody(worlds: seq<World>, events: seq<Event>, n: nat)
    requires Run(worlds, events) && n < |events| && events[n].SendSealed?
    requires events[n].id in worlds[n + 1].reqs && worlds[n + 1].reqs[events[n].id].fileSaved
    ensures var id := events[n].id;
      var log, path := LogOf(events, id, n), worlds[n + 1].reqs[id].filename;
      && id in worlds[n].reqs && !Failed(worlds[n].reqs[id]) && log.auth == Some(Granted)
      && (path in worlds[n + 1].disk.staging ==>
            var content := worlds[n + 1].disk.staging[path].content;
            && |content| <= MAX_FILE_SIZE
            && log.unnamed + content == log.bytes
            && (content == log.bytes <==> log.unnamed == ""))
  {
    RunInv(worlds, events, n);
    RunStep(worlds, events, n);
    hide Run;
    var w, e := worlds[n], events[n];
    RequestOwns(w, e.id);
    RunFollows(worlds, events, n, e.id);
    SealForSendOk(w.reqs[e.id], w.disk, e.refusal, e.flushed, e.closed);
    RequestLimit(w.reqs[e.id], w.disk);
    hide Inv, SealForSend, ReqOk, LogOf;
    var log := LogOf(events, e.id, n);
    PrefixGone(log.unnamed, w.reqs[e.id].received);
  }

  lemma RequestLimit(r: Req, d: Disk)
    requires ReqOk(r, d)
    ensures |r.received| <= MAX_FILE_SIZE
  {
  }

  // ----- errors stay -----

  lemma StepKeepsError(w: World, e: Event, id: nat)
    requires QS.Typed(w.sys) && Enabled(w, e) && id in w.reqs && Failed(w.reqs[id])
    ensures id in Apply(w, e).reqs ==> Failed(Apply(w, e).reqs[id])
  {
    hide QS.ApplyEnqueue, TQ.Enqueue, Commit, Seal, QS.Apply, TQ.Prune;
  }

  /** An error status, once set, stays until the request ends. */
  lemma {:induction false} ErrorsStay(worlds: seq<World>, events: seq<Event>, m: nat, n: nat, id: nat)
    requires Run(worlds, events) && m <= n < |worlds| && id in worlds[m].reqs && Failed(worlds[m].reqs[id])
    requires forall k :: m <= k < n ==> events[k] != Completed(id)
    ensures id in worlds[n].reqs && Failed(worlds[n].reqs[id])
    decreases n
  {
    hide Enabled, Apply, StepAt, Failed;
    if m < n {
      ErrorsStay(worlds, events, m, n - 1, id);
      RunStep(worlds, events, n - 1);
      StepKeepsError(worlds[n - 1], events[n - 1], id);
      StepKeepsRequest(worlds[n - 1], events[n - 1], id);
    }
  }

  lemma StepKeepsRequest(w: World, e: Event, id: nat)
    requires QS.Typed(w.sys) && Enabled(w, e) && id in w.reqs && e != Completed(id)
    ensures id in Apply(w, e).reqs
  {
    hide QS.ApplyEnqueue, TQ.Enqueue, QS.Apply;
  }
}
