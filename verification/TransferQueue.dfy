/** The job table, the ring of pending slots and the critical sections of src/transfer_queue.c. */
module TransferQueue {
  import opened Text
  import Files

  const MAX_TRANSFER_JOBS: nat := 128
  const JOB_RETENTION_SECONDS: int := 3600
  const SEND_ERROR: string := "Falha ao enviar o arquivo para o peer remoto"

  datatype Status = Unused | Queued | InProgress | Completed | Failed

  datatype Job = Job(inUse: bool, jobId: string, filepath: string, targetIp: string, targetPort: nat,
                     pairToken: string, status: Status, errorMessage: string,
                     bytesSent: nat, totalBytes: nat, createdAt: int, updatedAt: int)

  /** A zeroed slot. */
  const NO_JOB: Job := Job(false, "", "", "", 0, "", Unused, "", 0, 0, 0, 0)

  datatype Request = Request(filepath: string, targetIp: string, targetPort: nat, pairToken: string)

  datatype Queue = Queue(jobs: seq<Job>, ring: seq<nat>, head: nat, tail: nat, count: nat, running: bool)

  // ----- the job table -----

  predicate Terminal(j: Job) {
    j.status == Completed || j.status == Failed
  }

  predicate Prunable(j: Job, now: int) {
    j.inUse && Terminal(j) && j.updatedAt + JOB_RETENTION_SECONDS <= now
  }

  function Prune(jobs: seq<Job>, now: int): (r: seq<Job>)
    ensures |r| == |jobs|
    ensures forall i :: 0 <= i < |jobs| ==> r[i] == if Prunable(jobs[i], now) then NO_JOB else jobs[i]
  {
    seq(|jobs|, i requires 0 <= i < |jobs| => if Prunable(jobs[i], now) then NO_JOB else jobs[i])
  }

  /** The files that pruning the first `n` slots deletes. */
  function PrunedFiles(jobs: seq<Job>, n: nat, now: int): set<string>
    requires n <= |jobs|
  {
    set i | 0 <= i < n && Prunable(jobs[i], now) && jobs[i].filepath != "" :: jobs[i].filepath
  }

  /** The first slot not in use, or the table's size. */
  function FirstFree(jobs: seq<Job>, from: nat := 0): (i: nat)
    requires from <= |jobs|
    ensures from <= i <= |jobs|
    ensures i < |jobs| ==> !jobs[i].inUse
    ensures forall j :: from <= j < i ==> jobs[j].inUse
    decreases |jobs| - from
  {
    if from == |jobs| || !jobs[from].inUse then from else FirstFree(jobs, from + 1)
  }

  function NewJob(r: Request, jobId: string, now: int): Job {
    Job(true, jobId, r.filepath, r.targetIp, r.targetPort, r.pairToken, Queued, "", 0, 0, now, now)
  }

  // ----- the critical sections -----

  predicate Sized(q: Queue) {
    && |q.jobs| == MAX_TRANSFER_JOBS && |q.ring| == MAX_TRANSFER_JOBS
    && q.head < MAX_TRANSFER_JOBS && q.tail < MAX_TRANSFER_JOBS && q.count <= MAX_TRANSFER_JOBS
    && forall k :: 0 <= k < MAX_TRANSFER_JOBS ==> q.ring[k] < MAX_TRANSFER_JOBS
  }

  /** An enqueue; `jobId` is `None` when no token could be generated. */
  function Enqueue(q: Queue, r: Request, jobId: Option<string>, now: int): (result: (Queue, Option<nat>))
    requires Sized(q)
    ensures Sized(result.0)
  {
    if q.count >= MAX_TRANSFER_JOBS then (q, None)
    else
      var jobs := Prune(q.jobs, now);
      var i := FirstFree(jobs);
      if i == MAX_TRANSFER_JOBS || jobId.None? then (q.(jobs := jobs), None)
      else
        (q.(jobs := jobs[i := NewJob(r, jobId.value, now)],
            ring := q.ring[q.tail := i],
            tail := (q.tail + 1) % MAX_TRANSFER_JOBS,
            count := q.count + 1),
         Some(i))
  }

  /** The files an enqueue deletes by pruning. */
  function EnqueueDeletes(q: Queue, now: int): set<string>
    requires Sized(q)
  {
    if q.count >= MAX_TRANSFER_JOBS then {} else PrunedFiles(q.jobs, MAX_TRANSFER_JOBS, now)
  }

  /** What the worker does with the lock held at the top of its loop. */
  datatype Taken = Sleep | Exit | Skip | Send(slot: nat)

  function Take(q: Queue, now: int): (result: (Queue, Taken))
    requires Sized(q)
    ensures Sized(result.0)
  {
    if q.count == 0 then (q, if q.running then Sleep else Exit)
    else
      var i := q.ring[q.head];
      var popped := q.(head := (q.head + 1) % MAX_TRANSFER_JOBS, count := q.count - 1);
      if !q.jobs[i].inUse then (popped, Skip)
      else (popped.(jobs := q.jobs[i := q.jobs[i].(status := InProgress, updatedAt := now)]), Send(i))
  }

  function Progress(q: Queue, i: nat, bytesSent: nat, totalBytes: nat, now: int): (q': Queue)
    requires Sized(q) && i < MAX_TRANSFER_JOBS
    ensures Sized(q')
  {
    if !q.jobs[i].inUse then q
    else q.(jobs := q.jobs[i := q.jobs[i].(bytesSent := bytesSent, totalBytes := totalBytes,
                                           status := InProgress, updatedAt := now)])
  }

  function Finish(q: Queue, i: nat, sent: bool, now: int): (q': Queue)
    requires Sized(q) && i < MAX_TRANSFER_JOBS
    ensures Sized(q')
  {
    if !q.jobs[i].inUse then q
    else if sent then
      q.(jobs := q.jobs[i := q.jobs[i].(status := Completed, errorMessage := "", filepath := "", updatedAt := now)])
    else
      q.(jobs := q.jobs[i := q.jobs[i].(status := Failed, errorMessage := SEND_ERROR, updatedAt := now)])
  }

  /** The files a finished send deletes. */
  function FinishDeletes(q: Queue, i: nat, sent: bool): set<string>
    requires Sized(q) && i < MAX_TRANSFER_JOBS
  {
    if q.jobs[i].inUse && sent && q.jobs[i].filepath != "" then {q.jobs[i].filepath} else {}
  }

  /** The first slot in use with this id, as a status query finds it. */
  function Lookup(jobs: seq<Job>, jobId: string): (r: Option<Job>)
    ensures r.Some? ==> exists i :: 0 <= i < |jobs| && jobs[i].inUse && jobs[i].jobId == jobId && r.value == jobs[i]
    ensures r.None? ==> forall i :: 0 <= i < |jobs| && jobs[i].inUse ==> jobs[i].jobId != jobId
  {
    if jobs == [] then None
    else if jobs[0].inUse && jobs[0].jobId == jobId then Some(jobs[0])
    else
      var r := Lookup(jobs[1..], jobId);
      assert forall i :: 1 <= i < |jobs| ==> jobs[i] == jobs[1..][i - 1];
      r
  }

  // ----- the code -----

  class TransferQueue {
    const jobs: array<Job>
    const pendingQueue: array<nat>
    const store: Files.FileStore
    var queueHead: nat
    var queueTail: nat
    var queueCount: nat
    var queueRunning: bool
    /** How often the condition variable has been signalled. */
    ghost var signals: nat

    ghost function State(): Queue
      reads this, jobs, pendingQueue
    {
      Queue(jobs[..], pendingQueue[..], queueHead, queueTail, queueCount, queueRunning)
    }

    ghost predicate Valid()
      reads this, jobs, pendingQueue
    {
      Sized(State())
    }

    constructor (store: Files.FileStore)
      ensures Valid() && this.store == store && fresh(jobs) && fresh(pendingQueue)
      ensures State() == Empty()
    {
      jobs := new Job[MAX_TRANSFER_JOBS](i => NO_JOB);
      pendingQueue := new nat[MAX_TRANSFER_JOBS](i => 0);
      this.store := store;
      queueHead, queueTail, queueCount, queueRunning, signals := 0, 0, 0, true, 0;
    }

    method PruneTerminalJobs(now: int)
      requires Valid()
      modifies jobs, store
      ensures jobs[..] == Prune(old(jobs[..]), now)
      ensures store.staging == old(store.staging) - PrunedFiles(old(jobs[..]), MAX_TRANSFER_JOBS, now)
      ensures store.downloads == old(store.downloads)
    {
      ghost var before, files := jobs[..], store.staging;
      var index := 0;
      assert files - PrunedFiles(before, 0, now) == files;
      while index < MAX_TRANSFER_JOBS
        invariant 0 <= index <= MAX_TRANSFER_JOBS
        invariant forall i :: 0 <= i < index ==> jobs[i] == if Prunable(before[i], now) then NO_JOB else before[i]
        invariant forall i :: index <= i < MAX_TRANSFER_JOBS ==> jobs[i] == before[i]
        invariant store.staging == files - PrunedFiles(before, index, now)
        invariant store.downloads == old(store.downloads)
      {
        var job := jobs[index];
        PrunedFilesStep(before, index, now);
        if job.inUse {
          if (job.status == Completed || job.status == Failed) && job.updatedAt + JOB_RETENTION_SECONDS <= now {
            if job.filepath != "" {
              var _ := store.Delete(job.filepath);
            }
            jobs[index] := NO_JOB;
          }
        }
        index := index + 1;
      }
    }

    /** The sweep of the staging directory comes first, without the lock. */
    method TransferEnqueue(r: Request, jobId: Option<string>, sweptAt: int, now: int) returns (slot: Option<nat>)
      requires Valid()
      modifies this, jobs, pendingQueue, store
      ensures Valid() && (State(), slot) == Enqueue(old(State()), r, jobId, now)
      ensures signals == old(signals) + if slot.Some? then 1 else 0
      ensures store.staging ==
        Files.Sweep(old(store.staging), Files.STAGING_RETENTION_SECONDS, sweptAt) - EnqueueDeletes(old(State()), now)
      ensures store.downloads == old(store.downloads)
    {
      store.CleanupExpiredStagingFiles(Files.STAGING_RETENTION_SECONDS, sweptAt);
      hide Enqueue, EnqueueDeletes, Files.Sweep;
      slot := EnqueueLocked(r, jobId, now);
    }

    method EnqueueLocked(r: Request, jobId: Option<string>, now: int) returns (slot: Option<nat>)
      requires Valid()
      modifies this, jobs, pendingQueue, store
      ensures Valid() && (State(), slot) == Enqueue(old(State()), r, jobId, now)
      ensures signals == old(signals) + if slot.Some? then 1 else 0
      ensures store.staging == old(store.staging) - EnqueueDeletes(old(State()), now)
      ensures store.downloads == old(store.downloads)
    {
      if queueCount >= MAX_TRANSFER_JOBS {
        return None;
      }
      PruneTerminalJobs(now);
      ghost var pruned := jobs[..];
      var index := 0;
      while index < MAX_TRANSFER_JOBS && jobs[index].inUse
        invariant 0 <= index <= MAX_TRANSFER_JOBS
        invariant FirstFree(pruned) == FirstFree(pruned, index)
      {
        index := index + 1;
      }
      assert index < MAX_TRANSFER_JOBS ==> !pruned[index].inUse;
      if index == MAX_TRANSFER_JOBS || jobId.None? {
        return None;
      }
      jobs[index] := NewJob(r, jobId.value, now);
      pendingQueue[queueTail] := index;
      queueTail := (queueTail + 1) % MAX_TRANSFER_JOBS;
      queueCount := queueCount + 1;
      signals := signals + 1;
      assert jobs[..] == pruned[index := NewJob(r, jobId.value, now)];
      return Some(index);
    }

    /** The worker's first critical section. */
    method WorkerTake(now: int) returns (taken: Taken)
      requires Valid()
      modifies `queueHead, `queueCount, jobs
      ensures Valid() && (State(), taken) == Take(old(State()), now)
    {
      if queueCount == 0 {
        return if queueRunning then Sleep else Exit;
      }
      var i := pendingQueue[queueHead];
      queueHead := (queueHead + 1) % MAX_TRANSFER_JOBS;
      queueCount := queueCount - 1;
      if !jobs[i].inUse {
        return Skip;
      }
      jobs[i] := jobs[i].(status := InProgress, updatedAt := now);
      return Send(i);
    }

    method JobProgress(i: nat, bytesSent: nat, totalBytes: nat, now: int)
      requires Valid() && i < MAX_TRANSFER_JOBS
      modifies jobs
      ensures Valid() && State() == Progress(old(State()), i, bytesSent, totalBytes, now)
    {
      if jobs[i].inUse {
        jobs[i] := jobs[i].(bytesSent := bytesSent, totalBytes := totalBytes, status := InProgress, updatedAt := now);
      }
    }

    /** The worker's second critical section, after the send. */
    method WorkerFinish(i: nat, sent: bool, now: int)
      requires Valid() && i < MAX_TRANSFER_JOBS
      modifies jobs, store
      ensures Valid() && State() == Finish(old(State()), i, sent, now)
      ensures store.staging == old(store.staging) - FinishDeletes(old(State()), i, sent)
      ensures store.downloads == old(store.downloads)
    {
      if !jobs[i].inUse {
        return;
      }
      jobs[i] := jobs[i].(updatedAt := now);
      if sent {
        jobs[i] := jobs[i].(status := Completed, errorMessage := "");
        if jobs[i].filepath != "" {
          var _ := store.Delete(jobs[i].filepath);
          jobs[i] := jobs[i].(filepath := "");
        }
      } else {
        jobs[i] := jobs[i].(status := Failed, errorMessage := SEND_ERROR);
      }
    }

    method Shutdown()
      modifies `queueRunning, `signals
      ensures State() == old(State()).(running := false) && signals == old(signals) + 1
    {
      queueRunning := false;
      signals := signals + 1;
    }

    method StatusGet(jobId: string) returns (found: Option<Job>)
      requires Valid()
      ensures found == Lookup(jobs[..], jobId)
    {
      var index := 0;
      assert jobs[0..] == jobs[..];
      while index < MAX_TRANSFER_JOBS
        invariant 0 <= index <= MAX_TRANSFER_JOBS
        invariant Lookup(jobs[..], jobId) == Lookup(jobs[index..], jobId)
      {
        if jobs[index].inUse && jobs[index].jobId == jobId {
          return Some(jobs[index]);
        }
        assert jobs[index..][1..] == jobs[index + 1..];
        index := index + 1;
      }
      return None;
    }
  }

  function Empty(): (q: Queue)
    ensures Sized(q)
  {
    Queue(seq(MAX_TRANSFER_JOBS, i => NO_JOB), seq(MAX_TRANSFER_JOBS, i => 0), 0, 0, 0, true)
  }

  lemma PrunedFilesStep(jobs: seq<Job>, n: nat, now: int)
    requires n < |jobs|
    ensures PrunedFiles(jobs, n + 1, now) == PrunedFiles(jobs, n, now)
      + (if Prunable(jobs[n], now) && jobs[n].filepath != "" then {jobs[n].filepath} else {})
  {
  }
}
