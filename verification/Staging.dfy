/** The staging directory under many concurrent requests and the transfer queue: who owns which
    file. Each event is one critical section or callback of one thread. */
module Staging {
  import opened Text
  import opened Files
  import opened Storage
  import opened Requests
  import opened RequestGuarantees
  import TQ = TransferQueue
  import QS = QueueSystem
  import Ring

  datatype World = World(disk: Disk, reqs: map<nat, Req>, sys: QS.Sys)

  datatype Event =
    | Began(id: nat, kind: Kind)
    | Authorized(id: nat, auth: Auth)
    | Chunked(id: nat, chunk: Chunk)
    | Processed(id: nat, processed: bool)
    | UploadFinished(id: nat, flushed: bool, closed: bool, renamed: bool)
    | SendSealed(id: nat, refusal: Option<nat>, flushed: bool, closed: bool)
    | SendQueued(id: nat, targetIp: string, targetPort: nat, pairToken: string, jobId: Option<string>)
    | Completed(id: nat)
    | QueueStep(step: QS.Event)
    | Swept

  // ----- owners -----

  datatype Owner = ByRequest(id: nat) | ByJob(slot: nat)

  /** A request owns its staging file until a job takes it over. */
  function RequestFile(r: Req): string {
    if r.handedOff then "" else r.stage.path
  }

  function JobFile(j: TQ.Job): string {
    if j.inUse then j.filepath else ""
  }

  /** The file an owner answers for, or "". */
  function FileOf(w: World, o: Owner): string {
    match o
    case ByRequest(id) => if id in w.reqs then RequestFile(w.reqs[id]) else ""
    case ByJob(slot) => if slot < |w.sys.q.jobs| then JobFile(w.sys.q.jobs[slot]) else ""
  }

  ghost predicate OwnersOk(w: World) {
    && "" !in w.disk.staging
    && (forall p :: p in w.disk.staging ==> exists o :: FileOf(w, o) == p)
    && (forall o1, o2 :: FileOf(w, o1) != "" && FileOf(w, o1) == FileOf(w, o2) ==> o1 == o2)
  }

  // ----- steps -----

  function Disk0(): Disk {
    Disk(map[], map[])
  }

  function Init(now: int): World {
    World(Disk0(), map[], QS.Init(now))
  }

  /** The name is one no owner has: it carries a fresh random token. */
  ghost predicate FreshPath(w: World, path: string) {
    path != "" ==> path !in w.disk.staging && forall o :: FileOf(w, o) != path
  }

  function JobRequest(r: Req, e: Event): TQ.Request
    requires e.SendQueued?
  {
    TQ.Request(r.filename, e.targetIp, e.targetPort, e.pairToken)
  }

  /** Sealed and waiting for the enqueue that ends its final callback. */
  predicate ReadyToQueue(r: Req) {
    r.kind == Send && r.fileSaved && !r.handedOff
  }

  ghost predicate Enabled(w: World, e: Event) {
    match e
    case Began(id, _) => id !in w.reqs
    case Authorized(id, _) => id in w.reqs && !w.reqs[id].finished && w.reqs[id].kind != OtherForm
    case Chunked(id, chunk) =>
      && id in w.reqs && !w.reqs[id].finished && (w.reqs[id].kind == OtherForm || w.reqs[id].authorized)
      && FreshPath(w, OpenedPath(chunk, w.sys.now))
    case Processed(id, _) => id in w.reqs && !w.reqs[id].finished
    case UploadFinished(id, _, _, _) => id in w.reqs && !w.reqs[id].finished && w.reqs[id].kind == Upload
    case SendSealed(id, refusal, _, _) =>
      id in w.reqs && !w.reqs[id].finished && w.reqs[id].kind == Send && (refusal.Some? ==> refusal.value >= 400)
    case SendQueued(id, _, _, _, jobId) =>
      && id in w.reqs && ReadyToQueue(w.reqs[id])
      && QS.Enabled(w.sys, QS.Enqueued(JobRequest(w.reqs[id], e), jobId))
    case Completed(id) => id in w.reqs && !ReadyToQueue(w.reqs[id])
    case QueueStep(step) => !step.Enqueued? && QS.Enabled(w.sys, step)
    case Swept => true
  }

  function Deleting(d: Disk, files: set<string>): Disk {
    d.(staging := d.staging - files)
  }

  function Update(w: World, id: nat, rd: (Req, Disk)): World {
    w.(reqs := w.reqs[id := rd.0], disk := rd.1)
  }

  function StepDeletes(s: QS.Sys, step: QS.Event): set<string>
    requires QS.Typed(s) && QS.Enabled(s, step)
  {
    if step.Finished? then TQ.FinishDeletes(s.q, s.worker.slot, step.sent) else {}
  }

  /** The enqueue itself: prune, take a slot if there is one, delete what pruning freed. */
  function Queued(w: World, e: Event): World
    requires QS.Typed(w.sys) && e.SendQueued? && e.id in w.reqs
  {
    var request := JobRequest(w.reqs[e.id], e);
    var accepted := TQ.Enqueue(w.sys.q, request, e.jobId, w.sys.now).1.Some?;
    var w1 := w.(sys := QS.ApplyEnqueue(w.sys, request, e.jobId),
                 disk := Deleting(w.disk, TQ.EnqueueDeletes(w.sys.q, w.sys.now)));
    Update(w1, e.id, SendEnqueued(w1.reqs[e.id], w1.disk, accepted))
  }

  ghost function Apply(w: World, e: Event): World
    requires QS.Typed(w.sys) && Enabled(w, e)
  {
    match e
    case Began(id, kind) => w.(reqs := w.reqs[id := NewReq(kind)])
    case Authorized(id, auth) => Update(w, id, (Requests.Authorize(w.reqs[id], auth), w.disk))
    case Chunked(id, chunk) => Update(w, id, IteratePost(w.reqs[id], w.disk, chunk, w.sys.now))
    case Processed(id, processed) => Update(w, id, (PostProcessed(w.reqs[id], processed), w.disk))
    case UploadFinished(id, flushed, closed, renamed) =>
      Update(w, id, FinishUpload(w.reqs[id], w.disk, flushed, closed, renamed, w.sys.now))
    case SendSealed(id, refusal, flushed, closed) =>
      Update(w, id, (SealForSend(w.reqs[id], refusal, flushed, closed).0, w.disk))
    case SendQueued(_, _, _, _, _) => Queued(w, e)
    case Completed(id) => w.(disk := Complete(w.reqs[id], w.disk), reqs := w.reqs - {id})
    case QueueStep(step) =>
      w.(sys := QS.Apply(w.sys, step), disk := Deleting(w.disk, StepDeletes(w.sys, step)))
    case Swept => w.(disk := w.disk.(staging := Sweep(w.disk.staging, STAGING_RETENTION_SECONDS, w.sys.now)))
  }

  ghost predicate StepAt(worlds: seq<World>, events: seq<Event>, n: nat)
    requires n < |events| && |worlds| == |events| + 1
  {
    QS.Typed(worlds[n].sys) && Enabled(worlds[n], events[n]) && worlds[n + 1] == Apply(worlds[n], events[n])
  }

  ghost predicate Run(worlds: seq<World>, events: seq<Event>) {
    && |worlds| == |events| + 1
    && worlds[0] == Init(worlds[0].sys.now)
    && forall n :: 0 <= n < |events| ==> StepAt(worlds, events, n)
  }

  // ----- the invariant -----

  ghost predicate RequestsOk(w: World) {
    forall id :: id in w.reqs ==> ReqOk(w.reqs[id], w.disk)
  }

  /** A completed job has given up its file. */
  predicate JobsOk(jobs: seq<TQ.Job>) {
    forall i :: 0 <= i < |jobs| && jobs[i].status == TQ.Completed ==> jobs[i].filepath == ""
  }

  ghost predicate Inv(w: World) {
    QS.Inv(w.sys) && RequestsOk(w) && JobsOk(w.sys.q.jobs) && OwnersOk(w)
  }

  // ----- how ownership can change -----

  /** Owners may let go of files that are gone; nothing else happens. */
  lemma Release(w: World, w': World)
    requires OwnersOk(w) && w'.disk.staging.Keys <= w.disk.staging.Keys
    requires forall o :: FileOf(w', o) == FileOf(w, o) || (FileOf(w', o) == "" && FileOf(w, o) !in w'.disk.staging)
    ensures OwnersOk(w')
  {
    forall p | p in w'.disk.staging ensures exists o :: FileOf(w', o) == p {
      var o :| FileOf(w, o) == p;
      assert FileOf(w', o) == p;
    }
    forall o1, o2 | FileOf(w', o1) != "" && FileOf(w', o1) == FileOf(w', o2) ensures o1 == o2 {
      assert FileOf(w, o1) == FileOf(w, o2);
    }
  }

  /** An owner of nothing comes to own a fresh file. */
  lemma Acquire(w: World, w': World, o: Owner)
    requires OwnersOk(w) && FileOf(w, o) == "" && FreshPath(w, FileOf(w', o)) && FileOf(w', o) != ""
    requires w'.disk.staging.Keys <= w.disk.staging.Keys + {FileOf(w', o)}
    requires forall x :: x != o ==> FileOf(w', x) == FileOf(w, x)
    ensures OwnersOk(w')
  {
    var path := FileOf(w', o);
    forall p | p in w'.disk.staging ensures exists x :: FileOf(w', x) == p {
      if p != path {
        var x :| FileOf(w, x) == p;
        assert FileOf(w', x) == p;
      }
    }
    forall o1, o2 | FileOf(w', o1) != "" && FileOf(w', o1) == FileOf(w', o2) ensures o1 == o2 {
      assert o1 != o ==> FileOf(w, o1) == FileOf(w', o1);
      assert o2 != o ==> FileOf(w, o2) == FileOf(w', o2);
    }
  }

  /** A file passes from one owner to another that had none. */
  lemma Transfer(w: World, w': World, giver: Owner, taker: Owner)
    requires OwnersOk(w) && w'.disk.staging.Keys <= w.disk.staging.Keys
    requires giver != taker && FileOf(w, giver) != "" && FileOf(w, taker) == ""
    requires FileOf(w', giver) == "" && FileOf(w', taker) == FileOf(w, giver)
    requires forall x :: x != giver && x != taker ==> FileOf(w', x) == FileOf(w, x)
    ensures OwnersOk(w')
  {
    forall p | p in w'.disk.staging ensures exists x :: FileOf(w', x) == p {
      var x :| FileOf(w, x) == p;
      assert FileOf(w', if x == giver then taker else x) == p;
    }
    forall o1, o2 | FileOf(w', o1) != "" && FileOf(w', o1) == FileOf(w', o2) ensures o1 == o2 {
      var x1, x2 := if o1 == taker then giver else o1, if o2 == taker then giver else o2;
      assert FileOf(w, x1) == FileOf(w, x2);
    }
  }

  // ----- every step keeps the invariant -----

  /** Deleting files leaves the requests consistent. */
  lemma RequestsAfterDelete(w: World, d': Disk)
    requires RequestsOk(w)
    requires forall p :: p in d'.staging ==> p in w.disk.staging && d'.staging[p] == w.disk.staging[p]
    ensures RequestsOk(w.(disk := d'))
  {
    hide ReqOk;
    forall id | id in w.reqs ensures ReqOk(w.reqs[id], d') {
      ReqOkFrame(w.reqs[id], w.disk, d');
    }
  }

  /** A request changes itself and at most its own file. */
  ghost predicate OwnStep(w: World, id: nat, r': Req, d': Disk)
    requires id in w.reqs
  {
    var mine, mine' := RequestFile(w.reqs[id]), RequestFile(r');
    && ReqOk(r', d')
    && (mine' == "" || mine' == mine || (mine == "" && FreshPath(w, mine')))
    && (mine != "" && mine' == "" ==> mine !in d'.staging)
    && "" !in d'.staging
    && (forall p :: p in d'.staging && p != mine' ==> p in w.disk.staging && d'.staging[p] == w.disk.staging[p])
    && (mine' == mine ==> d'.staging.Keys <= w.disk.staging.Keys)
  }

  lemma OwnStepRequests(w: World, id: nat, r': Req, d': Disk)
    requires RequestsOk(w) && OwnersOk(w) && id in w.reqs && OwnStep(w, id, r', d')
    ensures RequestsOk(Update(w, id, (r', d')))
  {
    hide ReqOk;
    forall k | k in w.reqs && k != id ensures ReqOk(w.reqs[k], d') {
      var other := RequestFile(w.reqs[k]);
      assert FileOf(w, ByRequest(k)) == other && FileOf(w, ByRequest(id)) == RequestFile(w.reqs[id]);
      assert other != "" ==> other != RequestFile(r');
      ReqOkFrame(w.reqs[k], w.disk, d');
    }
  }

  lemma OwnStepOwners(w: World, id: nat, r': Req, d': Disk)
    requires OwnersOk(w) && id in w.reqs && OwnStep(w, id, r', d')
    ensures OwnersOk(Update(w, id, (r', d')))
  {
    hide ReqOk;
    var w' := Update(w, id, (r', d'));
    var mine, mine' := RequestFile(w.reqs[id]), RequestFile(r');
    assert forall o :: o != ByRequest(id) ==> FileOf(w', o) == FileOf(w, o);
    assert FileOf(w', ByRequest(id)) == mine' && FileOf(w, ByRequest(id)) == mine;
    if mine' == "" || mine' == mine {
      hide OwnersOk;
      Release(w, w');
    } else {
      hide OwnersOk;
      Acquire(w, w', ByRequest(id));
    }
  }

  lemma OwnStepInv(w: World, id: nat, r': Req, d': Disk)
    requires Inv(w) && id in w.reqs && OwnStep(w, id, r', d')
    ensures Inv(Update(w, id, (r', d')))
  {
    OwnStepRequests(w, id, r', d');
    OwnStepOwners(w, id, r', d');
    hide RequestsOk, OwnersOk, JobsOk, OwnStep, QS.Inv;
  }

  lemma RequestOwns(w: World, id: nat)
    requires Inv(w) && id in w.reqs
    ensures ReqOk(w.reqs[id], w.disk) && "" !in w.disk.staging
    ensures !w.reqs[id].finished ==> !w.reqs[id].handedOff && RequestFile(w.reqs[id]) == w.reqs[id].stage.path
  {
    hide QS.Inv, JobsOk;
  }

  lemma ChunkedInv(w: World, id: nat, chunk: Chunk)
    requires Inv(w) && Enabled(w, Chunked(id, chunk))
    ensures Inv(Update(w, id, IteratePost(w.reqs[id], w.disk, chunk, w.sys.now)))
  {
    RequestOwns(w, id);
    var r, d := w.reqs[id], w.disk;
    IteratePostOk(r, d, chunk, w.sys.now);
    var (r', d') := IteratePost(r, d, chunk, w.sys.now);
    hide IteratePost, Inv, ReqOk, FreshPath, OpenedPath;
    OwnStepInv(w, id, r', d');
  }

  lemma UploadFinishedInv(w: World, id: nat, flushed: bool, closed: bool, renamed: bool)
    requires Inv(w) && Enabled(w, UploadFinished(id, flushed, closed, renamed))
    ensures Inv(Update(w, id, FinishUpload(w.reqs[id], w.disk, flushed, closed, renamed, w.sys.now)))
  {
    RequestOwns(w, id);
    var r, d := w.reqs[id], w.disk;
    FinishUploadOk(r, d, flushed, closed, renamed, w.sys.now);
    var (r', d') := FinishUpload(r, d, flushed, closed, renamed, w.sys.now);
    hide FinishUpload, Inv, ReqOk;
    OwnStepInv(w, id, r', d');
  }

  /** Callbacks that leave the disk alone and the request's file with it. */
  lemma QuietRequestInv(w: World, id: nat, r': Req)
    requires Inv(w) && id in w.reqs && ReqOk(r', w.disk) && RequestFile(r') == RequestFile(w.reqs[id])
    ensures Inv(Update(w, id, (r', w.disk)))
  {
    RequestOwns(w, id);
    hide Inv, ReqOk;
    OwnStepInv(w, id, r', w.disk);
  }

  lemma BeganInv(w: World, id: nat, kind: Kind)
    requires Inv(w) && id !in w.reqs
    ensures Inv(w.(reqs := w.reqs[id := NewReq(kind)]))
  {
    var w' := w.(reqs := w.reqs[id := NewReq(kind)]);
    NewReqOk(kind, w.disk);
    assert forall o :: FileOf(w', o) == FileOf(w, o);
    hide ReqOk, QS.Inv, OwnersOk;
    Release(w, w');
  }

  lemma CompletedInv(w: World, id: nat)
    requires Inv(w) && id in w.reqs && !ReadyToQueue(w.reqs[id])
    ensures Inv(w.(disk := Complete(w.reqs[id], w.disk), reqs := w.reqs - {id}))
  {
    RequestOwns(w, id);
    var d' := Complete(w.reqs[id], w.disk);
    RequestsAfterDelete(w, d');
    var w' := w.(disk := d', reqs := w.reqs - {id});
    assert forall o :: o != ByRequest(id) ==> FileOf(w', o) == FileOf(w, o);
    assert RequestFile(w.reqs[id]) !in d'.staging by {
      if w.reqs[id].fileSaved {
        assert RequestFile(w.reqs[id]) == "";
      }
    }
    hide ReqOk, QS.Inv, OwnersOk, Complete;
    Release(w, w');
  }

  lemma SweptInv(w: World, d': Disk)
    requires Inv(w) && forall p :: p in d'.staging ==> p in w.disk.staging && d'.staging[p] == w.disk.staging[p]
    ensures Inv(w.(disk := d'))
  {
    RequestsAfterDelete(w, d');
    assert forall o :: FileOf(w.(disk := d'), o) == FileOf(w, o);
    hide ReqOk, QS.Inv, OwnersOk;
    Release(w, w.(disk := d'));
  }

  // ----- the queue's steps -----

  /** A change of the job table that only lets go of files that are deleted with it. */
  lemma JobsReleaseInv(w: World, sys': QS.Sys, files: set<string>)
    requires Inv(w) && QS.Inv(sys') && JobsOk(sys'.q.jobs) && |sys'.q.jobs| == |w.sys.q.jobs|
    requires forall i :: 0 <= i < |w.sys.q.jobs| ==>
      var a, b := JobFile(w.sys.q.jobs[i]), JobFile(sys'.q.jobs[i]);
      b == a || (b == "" && a in files)
    ensures Inv(w.(sys := sys', disk := Deleting(w.disk, files)))
  {
    var d' := Deleting(w.disk, files);
    RequestsAfterDelete(w, d');
    var w' := w.(sys := sys', disk := d');
    forall o ensures FileOf(w', o) == FileOf(w, o) || (FileOf(w', o) == "" && FileOf(w, o) !in d'.staging) {
    }
    hide ReqOk, QS.Inv, OwnersOk, JobsOk;
    Release(w, w');
    RequestsSys(w.(disk := d'), sys');
  }

  lemma RequestsSys(w: World, sys': QS.Sys)
    requires RequestsOk(w)
    ensures RequestsOk(w.(sys := sys'))
  {
    hide ReqOk;
  }

  lemma TakeJobs(s: QS.Sys)
    requires QS.Inv(s) && s.worker.Looping? && JobsOk(s.q.jobs)
    ensures var jobs := QS.ApplyTake(s).q.jobs;
      && JobsOk(jobs) && |jobs| == |s.q.jobs|
      && forall i :: 0 <= i < |jobs| ==> JobFile(jobs[i]) == JobFile(s.q.jobs[i])
  {
    QS.TakeCases(s);
    if s.q.count > 0 {
      QS.PopTable(s.q.jobs, Ring.Pending(s.q), s.worker, s.now);
    }
    hide QS.Inv, QS.ApplyTake, Ring.Pending;
  }

  lemma OwnStepJobs(s: QS.Sys, step: QS.Event)
    requires QS.Typed(s) && QS.Enabled(s, step) && !step.Enqueued? && !step.Took? && JobsOk(s.q.jobs)
    ensures var jobs := QS.Apply(s, step).q.jobs;
      && JobsOk(jobs) && |jobs| == |s.q.jobs|
      && forall i :: 0 <= i < |jobs| ==>
           var a, b := JobFile(s.q.jobs[i]), JobFile(jobs[i]);
           b == a || (b == "" && a in StepDeletes(s, step))
  {
    hide TQ.Enqueue, TQ.Take, QS.ApplyEnqueue, QS.ApplyTake;
  }

  lemma QueueStepInv(w: World, step: QS.Event)
    requires Inv(w) && Enabled(w, QueueStep(step))
    ensures Inv(Apply(w, QueueStep(step)))
  {
    QS.StepInv(w.sys, step);
    if step.Took? {
      TakeJobs(w.sys);
    } else {
      OwnStepJobs(w.sys, step);
    }
    var sys' := QS.Apply(w.sys, step);
    hide QS.Inv, RequestsOk, OwnersOk, JobsOk, QS.ApplyTake;
    JobsReleaseInv(w, sys', StepDeletes(w.sys, step));
  }

  // ----- the enqueue -----

  /** The enqueue's first half: pruned jobs and their files go. */
  function PrunedWorld(w: World): World
    requires QS.Typed(w.sys)
  {
    if w.sys.q.count >= TQ.MAX_TRANSFER_JOBS then w
    else w.(sys := w.sys.(q := QS.Pruned(w.sys)), disk := Deleting(w.disk, TQ.EnqueueDeletes(w.sys.q, w.sys.now)))
  }

  lemma PrunedWorldInv(w: World)
    requires Inv(w)
    ensures Inv(PrunedWorld(w)) && PrunedWorld(w).reqs == w.reqs
  {
    if w.sys.q.count < TQ.MAX_TRANSFER_JOBS {
      QS.PrunedInv(w.sys);
      var sys' := w.sys.(q := QS.Pruned(w.sys));
      PrunedJobs(w.sys);
      hide QS.Inv, RequestsOk, OwnersOk, JobsOk, QS.Pruned;
      JobsReleaseInv(w, sys', TQ.EnqueueDeletes(w.sys.q, w.sys.now));
    }
  }

  lemma PrunedJobs(s: QS.Sys)
    requires QS.Typed(s) && JobsOk(s.q.jobs) && s.q.count < TQ.MAX_TRANSFER_JOBS
    ensures var jobs := QS.Pruned(s).jobs;
      && JobsOk(jobs) && |jobs| == |s.q.jobs|
      && forall i :: 0 <= i < |jobs| ==>
           var a, b := JobFile(s.q.jobs[i]), JobFile(jobs[i]);
           b == a || (b == "" && a in TQ.EnqueueDeletes(s.q, s.now))
  {
  }

  /** The slot an enqueue takes, if it takes one. */
  function SlotTaken(w: World, e: Event): Option<nat>
    requires QS.Typed(w.sys) && e.SendQueued?
  {
    var i := TQ.FirstFree(QS.Pruned(w.sys).jobs);
    if w.sys.q.count >= TQ.MAX_TRANSFER_JOBS || i == TQ.MAX_TRANSFER_JOBS || e.jobId.None? then None else Some(i)
  }

  /** The enqueue in two halves: prune, then either hand the file to the free slot or abort it. */
  lemma QueuedCases(w: World, e: Event)
    requires QS.Typed(w.sys) && e.SendQueued? && e.id in w.reqs
    ensures var wp, r := PrunedWorld(w), w.reqs[e.id];
      wp.reqs == w.reqs && QS.Typed(wp.sys) &&
      match SlotTaken(w, e)
      case None => Queued(w, e) == Update(wp, e.id, SendEnqueued(r, wp.disk, false))
      case Some(i) =>
        wp.sys.q.count < TQ.MAX_TRANSFER_JOBS && i < TQ.MAX_TRANSFER_JOBS &&
        Queued(w, e) == Update(
          wp.(sys := QS.Pushed(wp.sys, i, TQ.NewJob(JobRequest(r, e), e.jobId.value, w.sys.now))),
          e.id, SendEnqueued(r, wp.disk, true))
  {
    QS.EnqueueCases(w.sys, JobRequest(w.reqs[e.id], e), e.jobId);
    EnqueueAccepts(w.sys.q, JobRequest(w.reqs[e.id], e), e.jobId, w.sys.now);
    hide QS.ApplyEnqueue, TQ.Enqueue, SendEnqueued, TQ.Prune, TQ.FirstFree, QS.Pushed, TQ.PrunedFiles;
    assert w.disk.staging - {} == w.disk.staging;
  }

  lemma EnqueueAccepts(q: TQ.Queue, request: TQ.Request, jobId: Option<string>, now: int)
    requires TQ.Sized(q)
    ensures TQ.Enqueue(q, request, jobId, now).1.Some? <==>
      q.count < TQ.MAX_TRANSFER_JOBS && TQ.FirstFree(TQ.Prune(q.jobs, now)) < TQ.MAX_TRANSFER_JOBS && jobId.Some?
  {
  }

  lemma RefusedInv(w: World, id: nat)
    requires Inv(w) && id in w.reqs && ReadyToQueue(w.reqs[id])
    ensures Inv(Update(w, id, SendEnqueued(w.reqs[id], w.disk, false)))
    ensures w.reqs[id].stage.path !in Update(w, id, SendEnqueued(w.reqs[id], w.disk, false)).disk.staging
  {
    RequestOwns(w, id);
    SendEnqueuedOk(w.reqs[id], w.disk, false);
    var (r', d') := SendEnqueued(w.reqs[id], w.disk, false);
    hide Inv, ReqOk, SendEnqueued;
    OwnStepInv(w, id, r', d');
  }

  lemma HandedOverInv(w: World, id: nat, i: nat, job: TQ.Job)
    requires Inv(w) && id in w.reqs && ReadyToQueue(w.reqs[id])
    requires w.sys.q.count < TQ.MAX_TRANSFER_JOBS && i < TQ.MAX_TRANSFER_JOBS && !w.sys.q.jobs[i].inUse
    requires job.inUse && job.status == TQ.Queued && job.filepath == w.reqs[id].filename
    requires forall a :: 0 <= a < |w.sys.accepted| ==> w.sys.accepted[a].jobId != job.jobId
    ensures Inv(Update(w.(sys := QS.Pushed(w.sys, i, job)), id, SendEnqueued(w.reqs[id], w.disk, true)))
  {
    RequestOwns(w, id);
    var r := w.reqs[id];
    SendEnqueuedOk(r, w.disk, true);
    QS.PushedInv(w.sys, i, job);
    var sys' := QS.Pushed(w.sys, i, job);
    var w' := Update(w.(sys := sys'), id, SendEnqueued(r, w.disk, true));
    HandedOverOwners(w, w', id, i, job);
    hide QS.Inv, ReqOk, QS.Pushed, OwnersOk;
    assert RequestsOk(w');
    assert sys'.q.jobs == w.sys.q.jobs[i := job] by {
      PushedJobs(w.sys, i, job);
    }
  }

  lemma PushedJobs(s: QS.Sys, i: nat, job: TQ.Job)
    requires TQ.Sized(s.q) && s.q.count < TQ.MAX_TRANSFER_JOBS && i < TQ.MAX_TRANSFER_JOBS
    ensures QS.Pushed(s, i, job).q.jobs == s.q.jobs[i := job]
  {
  }

  lemma HandedOverOwners(w: World, w': World, id: nat, i: nat, job: TQ.Job)
    requires OwnersOk(w) && id in w.reqs && ReadyToQueue(w.reqs[id]) && ReqOk(w.reqs[id], w.disk)
    requires TQ.Sized(w.sys.q) && w.sys.q.count < TQ.MAX_TRANSFER_JOBS
    requires i < TQ.MAX_TRANSFER_JOBS && !w.sys.q.jobs[i].inUse
    requires job.inUse && job.filepath == w.reqs[id].filename
    requires w' == w.(sys := QS.Pushed(w.sys, i, job), reqs := w.reqs[id := w.reqs[id].(handedOff := true)])
    ensures OwnersOk(w')
  {
    PushedJobs(w.sys, i, job);
    hide OwnersOk, QS.Pushed;
    assert FileOf(w', ByJob(i)) == w.reqs[id].stage.path;
    forall x | x != ByRequest(id) && x != ByJob(i) ensures FileOf(w', x) == FileOf(w, x) {
    }
    Transfer(w, w', ByRequest(id), ByJob(i));
  }

  lemma QueuedInv(w: World, e: Event)
    requires Inv(w) && e.SendQueued? && Enabled(w, e)
    ensures Inv(Queued(w, e))
  {
    QueuedCases(w, e);
    PrunedWorldInv(w);
    var wp := PrunedWorld(w);
    match SlotTaken(w, e)
    case None =>
      hide Inv, Queued, PrunedWorld, QS.Pushed;
      RefusedInv(wp, e.id);
    case Some(i) =>
      assert wp.sys.accepted == w.sys.accepted && !wp.sys.q.jobs[i].inUse;
      hide Inv, Queued, PrunedWorld, QS.Pushed;
      HandedOverInv(wp, e.id, i, TQ.NewJob(JobRequest(w.reqs[e.id], e), e.jobId.value, w.sys.now));
  }

  /** Every step of every thread keeps the invariant. */
  lemma StepInv(w: World, e: Event)
    requires Inv(w) && Enabled(w, e)
    ensures Inv(Apply(w, e))
  {
    match e
    case Began(id, kind) =>
      BeganInv(w, id, kind);
    case Authorized(id, auth) =>
      RequestOwns(w, id);
      AuthorizeOk(w.reqs[id], w.disk, auth);
      hide Inv, ReqOk;
      QuietRequestInv(w, id, Requests.Authorize(w.reqs[id], auth));
    case Chunked(id, chunk) =>
      ChunkedInv(w, id, chunk);
    case Processed(id, processed) =>
      RequestOwns(w, id);
      PostProcessedOk(w.reqs[id], w.disk, processed);
      hide Inv, ReqOk;
      QuietRequestInv(w, id, PostProcessed(w.reqs[id], processed));
    case UploadFinished(id, flushed, closed, renamed) =>
      UploadFinishedInv(w, id, flushed, closed, renamed);
    case SendSealed(id, refusal, flushed, closed) =>
      RequestOwns(w, id);
      SealForSendOk(w.reqs[id], w.disk, refusal, flushed, closed);
      hide Inv, ReqOk, SealForSend;
      QuietRequestInv(w, id, SealForSend(w.reqs[id], refusal, flushed, closed).0);
    case SendQueued(_, _, _, _, _) =>
      QueuedInv(w, e);
    case Completed(id) =>
      CompletedInv(w, id);
    case QueueStep(step) =>
      QueueStepInv(w, step);
    case Swept =>
      SweptInv(w, w.disk.(staging := Sweep(w.disk.staging, STAGING_RETENTION_SECONDS, w.sys.now)));
  }

  lemma InitInv(now: int)
    ensures Inv(Init(now))
  {
    QS.InitInv(now);
    hide QS.Inv;
  }

  lemma RunStep(worlds: seq<World>, events: seq<Event>, n: nat)
    requires Run(worlds, events) && n < |events|
    ensures |worlds| == |events| + 1 && QS.Typed(worlds[n].sys)
    ensures Enabled(worlds[n], events[n]) && worlds[n + 1] == Apply(worlds[n], events[n])
  {
    hide Enabled, Apply, QS.Typed;
    assert StepAt(worlds, events, n);
  }

  lemma {:induction false} RunInv(worlds: seq<World>, events: seq<Event>, n: nat)
    requires Run(worlds, events) && n < |worlds|
    ensures Inv(worlds[n])
  {
    hide Inv, Enabled, Apply, StepAt;
    if n == 0 {
      InitInv(worlds[0].sys.now);
    } else {
      RunInv(worlds, events, n - 1);
      RunStep(worlds, events, n - 1);
      StepInv(worlds[n - 1], events[n - 1]);
    }
  }

  // ----- building a run -----

  predicate EndsIn(worlds: seq<World>, events: seq<Event>, w: World, n: nat) {
    |worlds| == n + 1 && |events| == n && worlds[n] == w
  }

  /** A run goes on with any enabled step. */
  lemma Extend(worlds: seq<World>, events: seq<Event>, n: nat, w: World, e: Event)
    requires Run(worlds, events) && EndsIn(worlds, events, w, n) && QS.Typed(w.sys) && Enabled(w, e)
    ensures Run(worlds + [Apply(w, e)], events + [e])
    ensures EndsIn(worlds + [Apply(w, e)], events + [e], Apply(w, e), n + 1)
  {
    hide Enabled, Apply, QS.Typed;
    var worlds', events' := worlds + [Apply(w, e)], events + [e];
    forall k | 0 <= k < |events'| ensures StepAt(worlds', events', k) {
      assert k < n ==> StepAt(worlds, events, k);
    }
  }
}
