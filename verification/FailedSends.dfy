/** A run of requests, queue and disk in which a send fails and its staged file stays, although
    README.md:85 of the repository has outgoing files cleaned up after completion or failure. */
module FailedSends {
  import opened Text
  import opened Files
  import opened Storage
  import opened Requests
  import opened Staging
  import TQ = TransferQueue
  import QS = QueueSystem

  const BODY: Chunk := FileChunk(Some("f"), "x", Some("t"), true, 1)

  function StagedPath(): string {
    StagingPath(0, "t", SafeName("f"))
  }

  /** The request after its one chunk, with its file open or sealed. */
  function Sender(path: string, sealed: bool, handedOff: bool): Req {
    Req(Send, Stage(!sealed, SafeName("f"), path, 1, sealed), if sealed then path else "", true, sealed, 200,
        true, true, "x", "", sealed, handedOff)
  }

  function Holding(path: string, r: Req, sys: QS.Sys): World {
    World(Disk(map[path := File("x", 0)], map[]), map[0 := r], sys)
  }

  lemma ChunkStep(path: string)
    requires path == StagedPath() && path != ""
    ensures var granted := NewReq(Send).(authChecked := true, authorized := true);
      IteratePost(granted, Disk0(), BODY, 0) == (Sender(path, false, false), Disk(map[path := File("x", 0)], map[]))
  {
    hide SafeName, StagingPath;
    var none: Directory := map[];
    assert "" + "x" == "x";
    assert none[path := File("", 0)][path := File("x", 0)] == map[path := File("x", 0)];
    var begun := Disk(none[path := File("", 0)], map[]);
    assert AppendTo(begun, path, "x", 0) == Disk(map[path := File("x", 0)], map[]);
  }

  function JobOf(path: string): TQ.Job {
    TQ.NewJob(TQ.Request(path, "10.0.0.2", 8080, "p"), "0-a", 0)
  }

  function WithJob(job: TQ.Job, count: nat, head: nat, worker: QS.Worker, sent: seq<TQ.Job>, first: TQ.Job): QS.Sys {
    QS.Sys(TQ.Empty().(jobs := TQ.Empty().jobs[0 := job], count := count, head := head, tail := 1),
           worker, 0, [first], sent, 0)
  }

  lemma EnqueueStep(path: string)
    ensures QS.ApplyEnqueue(QS.Init(0), TQ.Request(path, "10.0.0.2", 8080, "p"), Some("0-a"))
      == WithJob(JobOf(path), 1, 0, QS.Looping, [], JobOf(path))
    ensures TQ.Enqueue(QS.Init(0).q, TQ.Request(path, "10.0.0.2", 8080, "p"), Some("0-a"), 0).1 == Some(0)
    ensures TQ.EnqueueDeletes(QS.Init(0).q, 0) == {}
  {
    var q := TQ.Empty();
    assert TQ.Prune(q.jobs, 0) == q.jobs;
    assert TQ.FirstFree(q.jobs) == 0;
    assert q.ring[0 := 0] == q.ring;
  }

  lemma TakeStep(job: TQ.Job)
    requires job.inUse && job.status == TQ.Queued
    ensures QS.ApplyTake(WithJob(job, 1, 0, QS.Looping, [], job))
      == WithJob(job.(status := TQ.InProgress, updatedAt := 0), 0, 1, QS.Sending(0, 0), [job], job)
  {
  }

  lemma FinishStep(job: TQ.Job)
    requires job.inUse
    ensures var s := WithJob(job.(status := TQ.InProgress, updatedAt := 0), 0, 1, QS.Sending(0, 0), [job], job);
      QS.Typed(s) && QS.Apply(s, QS.Finished(false))
        == WithJob(job.(status := TQ.Failed, errorMessage := TQ.SEND_ERROR, updatedAt := 0), 0, 1, QS.Looping,
                   [job], job)
  {
  }

  lemma Start(path: string)
    requires path == StagedPath() && path != ""
    ensures var w0 := Init(0);
      var w1 := w0.(reqs := map[0 := NewReq(Send)]);
      var w2 := w0.(reqs := map[0 := NewReq(Send).(authChecked := true, authorized := true)]);
      && Enabled(w0, Began(0, Send)) && Apply(w0, Began(0, Send)) == w1
      && Enabled(w1, Authorized(0, Granted)) && Apply(w1, Authorized(0, Granted)) == w2
      && Enabled(w2, Chunked(0, BODY))
      && Apply(w2, Chunked(0, BODY)) == Holding(path, Sender(path, false, false), QS.Init(0))
  {
    ChunkStep(path);
    hide SafeName, StagingPath, IteratePost;
    var none: map<nat, Req> := map[];
    assert none[0 := NewReq(Send)] == map[0 := NewReq(Send)];
    var w2 := Init(0).(reqs := map[0 := NewReq(Send).(authChecked := true, authorized := true)]);
    assert forall o :: FileOf(w2, o) == "";
  }

  lemma SealAndQueue(path: string)
    requires path != ""
    ensures var w3 := Holding(path, Sender(path, false, false), QS.Init(0));
      var w4 := Holding(path, Sender(path, true, false), QS.Init(0));
      var e4, e5 := SendSealed(0, None, true, true), SendQueued(0, "10.0.0.2", 8080, "p", Some("0-a"));
      && Enabled(w3, e4) && Apply(w3, e4) == w4 && Enabled(w4, e5)
      && Apply(w4, e5)
           == Holding(path, Sender(path, true, true), WithJob(JobOf(path), 1, 0, QS.Looping, [], JobOf(path)))
  {
    EnqueueStep(path);
    hide SafeName, QS.ApplyEnqueue, TQ.Enqueue, TQ.EnqueueDeletes;
    var staging: Directory := map[path := File("x", 0)];
    assert staging - {} == staging;
  }

  lemma TakeAndFail(path: string)
    requires path != ""
    ensures var r, job := Sender(path, true, true), JobOf(path);
      var taken, failed := job.(status := TQ.InProgress), job.(status := TQ.Failed, errorMessage := TQ.SEND_ERROR);
      var w5 := Holding(path, r, WithJob(job, 1, 0, QS.Looping, [], job));
      var w6 := Holding(path, r, WithJob(taken, 0, 1, QS.Sending(0, 0), [job], job));
      && Enabled(w5, QueueStep(QS.Took)) && Apply(w5, QueueStep(QS.Took)) == w6
      && Enabled(w6, QueueStep(QS.Finished(false)))
      && Apply(w6, QueueStep(QS.Finished(false))) == Holding(path, r, WithJob(failed, 0, 1, QS.Looping, [job], job))
  {
    TakeStep(JobOf(path));
    FinishStep(JobOf(path));
    hide SafeName, QS.ApplyTake, TQ.Finish;
    var staging: Directory := map[path := File("x", 0)];
    assert staging - {} == staging;
  }

  lemma FirstSteps(path: string) returns (worlds: seq<World>, events: seq<Event>)
    requires path == StagedPath() && path != ""
    ensures Run(worlds, events) && EndsIn(worlds, events, Holding(path, Sender(path, false, false), QS.Init(0)), 3)
  {
    Start(path);
    hide Apply, Enabled, StepAt, StagedPath;
    var w0 := Init(0);
    var w1 := Apply(w0, Began(0, Send));
    var w2 := Apply(w1, Authorized(0, Granted));
    worlds, events := [w0], [];
    assert Run(worlds, events) && EndsIn(worlds, events, w0, 0);
    hide Run, EndsIn;
    Extend(worlds, events, 0, w0, Began(0, Send));
    worlds, events := worlds + [w1], events + [Began(0, Send)];
    Extend(worlds, events, 1, w1, Authorized(0, Granted));
    worlds, events := worlds + [w2], events + [Authorized(0, Granted)];
    Extend(worlds, events, 2, w2, Chunked(0, BODY));
    worlds, events := worlds + [Apply(w2, Chunked(0, BODY))], events + [Chunked(0, BODY)];
  }

  lemma LastSteps(path: string, worlds: seq<World>, events: seq<Event>)
    returns (worlds': seq<World>, events': seq<Event>)
    requires path != ""
    requires Run(worlds, events) && EndsIn(worlds, events, Holding(path, Sender(path, false, false), QS.Init(0)), 3)
    ensures var job := JobOf(path).(status := TQ.Failed, errorMessage := TQ.SEND_ERROR);
      var sys := WithJob(job, 0, 1, QS.Looping, [JobOf(path)], JobOf(path));
      && Run(worlds', events') && |events'| == 7 && events'[6] == QueueStep(QS.Finished(false))
      && EndsIn(worlds', events', Holding(path, Sender(path, true, true), sys), 7)
  {
    SealAndQueue(path);
    TakeAndFail(path);
    hide Apply, Enabled, StepAt, Holding, WithJob, Sender, JobOf, Run, QS.Typed;
    var w3 := Holding(path, Sender(path, false, false), QS.Init(0));
    var e4, e5 := SendSealed(0, None, true, true), SendQueued(0, "10.0.0.2", 8080, "p", Some("0-a"));
    var e6, e7 := QueueStep(QS.Took), QueueStep(QS.Finished(false));
    Extend(worlds, events, 3, w3, e4);
    worlds', events' := worlds + [Apply(w3, e4)], events + [e4];
    var w4 := Apply(w3, e4);
    Extend(worlds', events', 4, w4, e5);
    worlds', events' := worlds' + [Apply(w4, e5)], events' + [e5];
    var w5 := Apply(w4, e5);
    Extend(worlds', events', 5, w5, e6);
    worlds', events' := worlds' + [Apply(w5, e6)], events' + [e6];
    var w6 := Apply(w5, e6);
    Extend(worlds', events', 6, w6, e7);
    worlds', events' := worlds' + [Apply(w6, e7)], events' + [e7];
  }

  /** After the failure the worker is back at its loop, the job is marked failed and its file is
      still in the staging directory. */
  lemma FailedSendKeepsFile() returns (worlds: seq<World>, events: seq<Event>)
    ensures Run(worlds, events) && |events| == 7 && events[6] == QueueStep(QS.Finished(false))
    ensures |worlds| == 8 && |worlds[7].sys.q.jobs| > 0
    ensures worlds[7].sys.q.jobs[0].status == TQ.Failed
    ensures worlds[7].sys.q.jobs[0].filepath in worlds[7].disk.staging
  {
    var path := StagedPath();
    assert path != "" && |path| >= 8;
    hide StagedPath, Run;
    worlds, events := FirstSteps(path);
    worlds, events := LastSteps(path, worlds, events);
  }
}
