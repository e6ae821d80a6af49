/** The transfer queue as a system of interleaved critical sections: enqueuers, one worker that
    sends with the lock released, a condition variable, a shutdown and the clock. */
module QueueSystem {
  import opened Text
  import opened TransferQueue
  import opened Ring

  /** Where the worker thread is: about to take the lock at the top of its loop, waiting on the
      condition variable (signalled or not), sending a slot's file, or gone. */
  datatype Worker = Looping | Asleep(signalled: bool) | Sending(slot: nat, since: int) | Exited

  /** The shared state, and as history: the jobs accepted and the jobs whose send began, each as
      it was on acceptance, and how many were accepted after the worker had gone. */
  datatype Sys = Sys(q: Queue, worker: Worker, now: int, accepted: seq<Job>, sent: seq<Job>, late: nat)

  datatype Event =
    | Enqueued(request: Request, jobId: Option<string>)
    | Took
    | Woke
    | Progressed(bytesSent: nat, totalBytes: nat)
    | Finished(sent: bool)
    | ShutDown
    | Ticked(seconds: nat)

  predicate Typed(s: Sys) {
    Sized(s.q) && (s.worker.Sending? ==> s.worker.slot < MAX_TRANSFER_JOBS)
  }

  /** Fresh job ids; a wait may end at any time, signalled or not. */
  predicate Enabled(s: Sys, e: Event) {
    match e
    case Enqueued(_, jobId) => jobId.Some? ==> forall a :: 0 <= a < |s.accepted| ==> s.accepted[a].jobId != jobId.value
    case Took => s.worker.Looping?
    case Woke => s.worker.Asleep?
    case Progressed(_, _) => s.worker.Sending?
    case Finished(_) => s.worker.Sending?
    case ShutDown => true
    case Ticked(_) => true
  }

  /** A signal is lost unless the worker waits. */
  function Signal(w: Worker): Worker {
    if w.Asleep? then Asleep(true) else w
  }

  function Apply(s: Sys, e: Event): (s': Sys)
    requires Typed(s) && Enabled(s, e)
    ensures Typed(s')
  {
    match e
    case Enqueued(request, jobId) => ApplyEnqueue(s, request, jobId)
    case Took => ApplyTake(s)
    case Woke => s.(worker := Looping)
    case Progressed(bytesSent, totalBytes) =>
      s.(q := Progress(s.q, s.worker.slot, bytesSent, totalBytes, s.now))
    case Finished(sent) => s.(q := Finish(s.q, s.worker.slot, sent, s.now), worker := Looping)
    case ShutDown => s.(q := s.q.(running := false), worker := Signal(s.worker))
    case Ticked(seconds) => s.(now := s.now + seconds)
  }

  function ApplyEnqueue(s: Sys, request: Request, jobId: Option<string>): (s': Sys)
    requires Typed(s)
    ensures Typed(s')
  {
    var (q', slot) := Enqueue(s.q, request, jobId, s.now);
    if slot.None? then s.(q := q')
    else s.(q := q', worker := Signal(s.worker),
            accepted := s.accepted + [NewJob(request, jobId.value, s.now)],
            late := s.late + (if s.worker.Exited? then 1 else 0))
  }

  function ApplyTake(s: Sys): (s': Sys)
    requires Typed(s)
    ensures Typed(s')
  {
    var (q', taken) := Take(s.q, s.now);
    match taken
    case Sleep => s.(q := q', worker := Asleep(false))
    case Exit => s.(q := q', worker := Exited)
    case Skip => s.(q := q', worker := Looping)
    case Send(i) => s.(q := q', worker := Sending(i, s.now), sent := s.sent + [s.q.jobs[i]])
  }

  function Init(now: int): Sys {
    Sys(Empty(), Looping, now, [], [], 0)
  }

  predicate Run(states: seq<Sys>, events: seq<Event>) {
    && |states| == |events| + 1
    && states[0] == Init(states[0].now)
    && (forall n :: 0 <= n < |states| ==> Typed(states[n]))
    && (forall n :: 0 <= n < |events| ==> StepAt(states, events, n))
  }

  predicate StepAt(states: seq<Sys>, events: seq<Event>, n: nat)
    requires n < |events| && |states| == |events| + 1
  {
    && Typed(states[n]) && Enabled(states[n], events[n])
    && states[n + 1] == Apply(states[n], events[n])
  }

  // ----- the invariant -----

  predicate InFlight(w: Worker, i: nat) {
    w.Sending? && w.slot == i
  }

  /** A slot's status says exactly whether it is pending and whether the worker holds it. */
  predicate SlotOk(j: Job, pending: bool, inFlight: bool) {
    && (if j.inUse then j.status != Unused else j == NO_JOB)
    && (pending <==> j.status == Queued)
    && (inFlight <==> j.status == InProgress)
  }

  predicate TableOk(jobs: seq<Job>, p: seq<nat>, w: Worker) {
    && |jobs| == MAX_TRANSFER_JOBS
    && Distinct(p) && (forall k :: 0 <= k < |p| ==> p[k] < MAX_TRANSFER_JOBS)
    && (w.Sending? ==> w.slot < MAX_TRANSFER_JOBS)
    && forall i :: 0 <= i < MAX_TRANSFER_JOBS ==> SlotOk(jobs[i], i in p, InFlight(w, i))
  }

  function JobsAt(jobs: seq<Job>, p: seq<nat>): (r: seq<Job>)
    requires forall k :: 0 <= k < |p| ==> p[k] < |jobs|
    ensures |r| == |p| && forall k :: 0 <= k < |p| ==> r[k] == jobs[p[k]]
  {
    seq(|p|, k requires 0 <= k < |p| => jobs[p[k]])
  }

  /** No two slots share an id, and every id in use was accepted, once. */
  predicate IdsOk(jobs: seq<Job>, accepted: seq<Job>) {
    && (forall i, j :: 0 <= i < j < |jobs| && jobs[i].inUse && jobs[j].inUse ==> jobs[i].jobId != jobs[j].jobId)
    && (forall i :: 0 <= i < |jobs| && jobs[i].inUse ==>
          exists a :: 0 <= a < |accepted| && accepted[a].jobId == jobs[i].jobId)
    && (forall a, b :: 0 <= a < b < |accepted| ==> accepted[a].jobId != accepted[b].jobId)
  }

  /** A worker waits unsignalled only when there is nothing to do; it leaves only when shut down
      with nothing pending, and what is pending after that came later. */
  predicate WorkerOk(s: Sys) {
    && (s.worker == Asleep(false) ==> s.q.running && s.q.count == 0)
    && (if s.worker.Exited? then !s.q.running && s.q.count == s.late else s.late == 0)
  }

  predicate Inv(s: Sys) {
    && Typed(s) && TailFollows(s.q)
    && TableOk(s.q.jobs, Pending(s.q), s.worker)
    && s.accepted == s.sent + JobsAt(s.q.jobs, Pending(s.q))
    && IdsOk(s.q.jobs, s.accepted)
    && WorkerOk(s)
  }

  lemma InitInv(now: int)
    ensures Inv(Init(now))
  {
    var s := Init(now);
    assert Pending(s.q) == [];
    assert JobsAt(s.q.jobs, []) == [];
  }

  // ----- enqueue -----

  lemma PruneTable(jobs: seq<Job>, p: seq<nat>, w: Worker, now: int)
    requires TableOk(jobs, p, w)
    ensures TableOk(Prune(jobs, now), p, w)
    ensures JobsAt(Prune(jobs, now), p) == JobsAt(jobs, p)
  {
    forall i | 0 <= i < MAX_TRANSFER_JOBS ensures SlotOk(Prune(jobs, now)[i], i in p, InFlight(w, i)) {
      assert SlotOk(jobs[i], i in p, InFlight(w, i));
    }
    forall k | 0 <= k < |p| ensures Prune(jobs, now)[p[k]] == jobs[p[k]] {
      assert SlotOk(jobs[p[k]], p[k] in p, InFlight(w, p[k]));
    }
  }

  lemma PruneIds(jobs: seq<Job>, accepted: seq<Job>, now: int)
    requires IdsOk(jobs, accepted)
    ensures IdsOk(Prune(jobs, now), accepted)
  {
    assert forall i :: 0 <= i < |jobs| && Prune(jobs, now)[i].inUse ==> Prune(jobs, now)[i] == jobs[i];
  }

  lemma PushTable(jobs: seq<Job>, p: seq<nat>, w: Worker, i: nat, job: Job)
    requires TableOk(jobs, p, w) && i < MAX_TRANSFER_JOBS && !jobs[i].inUse && job.inUse && job.status == Queued
    ensures TableOk(jobs[i := job], p + [i], w)
    ensures JobsAt(jobs[i := job], p + [i]) == JobsAt(jobs, p) + [job]
  {
    assert SlotOk(jobs[i], i in p, InFlight(w, i));
    assert i !in p;
    forall j | 0 <= j < MAX_TRANSFER_JOBS ensures SlotOk(jobs[i := job][j], j in p + [i], InFlight(w, j)) {
      assert SlotOk(jobs[j], j in p, InFlight(w, j));
    }
  }

  lemma PushIds(jobs: seq<Job>, accepted: seq<Job>, i: nat, job: Job)
    requires IdsOk(jobs, accepted) && i < |jobs| && job.inUse
    requires forall a :: 0 <= a < |accepted| ==> accepted[a].jobId != job.jobId
    ensures IdsOk(jobs[i := job], accepted + [job])
  {
    var jobs', accepted' := jobs[i := job], accepted + [job];
    forall j | 0 <= j < |jobs'| && jobs'[j].inUse
      ensures exists a :: 0 <= a < |accepted'| && accepted'[a].jobId == jobs'[j].jobId
      ensures j != i ==> jobs'[j].jobId != job.jobId
    {
      if j == i {
        assert accepted'[|accepted|] == job;
      } else {
        var a :| 0 <= a < |accepted| && accepted[a].jobId == jobs[j].jobId;
        assert accepted'[a] == accepted[a];
      }
    }
  }

  function Pruned(s: Sys): Queue
    requires Typed(s)
  {
    s.q.(jobs := Prune(s.q.jobs, s.now))
  }

  lemma PrunedInv(s: Sys)
    requires Inv(s)
    ensures Inv(s.(q := Pruned(s)))
    ensures Pending(Pruned(s)) == Pending(s.q)
  {
    PruneTable(s.q.jobs, Pending(s.q), s.worker, s.now);
    PruneIds(s.q.jobs, s.accepted, s.now);
    SamePending(s.q, Pruned(s));
    hide TableOk, IdsOk, JobsAt, Pending, Prune;
  }

  /** The state after an accepted enqueue into slot `i`. */
  function Pushed(s: Sys, i: nat, job: Job): Sys
    requires Sized(s.q) && s.q.count < MAX_TRANSFER_JOBS && i < MAX_TRANSFER_JOBS
  {
    s.(q := Push(s.q, i).(jobs := s.q.jobs[i := job]), worker := Signal(s.worker), accepted := s.accepted + [job],
       late := s.late + (if s.worker.Exited? then 1 else 0))
  }

  /** The three outcomes of an enqueue. */
  lemma EnqueueCases(s: Sys, request: Request, jobId: Option<string>)
    requires Typed(s)
    ensures var s' := ApplyEnqueue(s, request, jobId);
      if s.q.count >= MAX_TRANSFER_JOBS then s' == s
      else
        var i := FirstFree(Pruned(s).jobs);
        if i == MAX_TRANSFER_JOBS || jobId.None? then s' == s.(q := Pruned(s))
        else s' == Pushed(s.(q := Pruned(s)), i, NewJob(request, jobId.value, s.now))
  {
    hide Prune;
  }

  lemma EnqueueInv(s: Sys, request: Request, jobId: Option<string>)
    requires Inv(s) && Enabled(s, Enqueued(request, jobId))
    ensures Inv(ApplyEnqueue(s, request, jobId))
  {
    EnqueueCases(s, request, jobId);
    PrunedInv(s);
    var i := FirstFree(Pruned(s).jobs);
    if s.q.count < MAX_TRANSFER_JOBS && i < MAX_TRANSFER_JOBS && jobId.Some? {
      PushedInv(s.(q := Pruned(s)), i, NewJob(request, jobId.value, s.now));
    }
    hide Inv, ApplyEnqueue, Pushed, Pruned, FirstFree;
  }

  lemma SamePending(q: Queue, q': Queue)
    requires Sized(q) && Sized(q') && q'.ring == q.ring && q'.head == q.head && q'.count == q.count
    ensures Pending(q') == Pending(q)
  {
  }

  lemma PushedInv(s: Sys, i: nat, job: Job)
    requires Inv(s) && s.q.count < MAX_TRANSFER_JOBS
    requires i < MAX_TRANSFER_JOBS && !s.q.jobs[i].inUse && job.inUse && job.status == Queued
    requires forall a :: 0 <= a < |s.accepted| ==> s.accepted[a].jobId != job.jobId
    ensures Inv(Pushed(s, i, job)) && Pending(Pushed(s, i, job).q) == Pending(s.q) + [i]
  {
    hide TableOk, IdsOk, JobsAt, Pending, Distinct, SlotOk;
    var p := Pending(s.q);
    PushAppends(s.q, i);
    var q' := Push(s.q, i).(jobs := s.q.jobs[i := job]);
    SamePending(Push(s.q, i), q');
    PushTable(s.q.jobs, p, s.worker, i, job);
    SignalTable(q'.jobs, p + [i], s.worker);
    PushIds(s.q.jobs, s.accepted, i, job);
    assert s.sent + JobsAt(s.q.jobs, p) + [job] == s.sent + (JobsAt(s.q.jobs, p) + [job]);
  }

  lemma SignalTable(jobs: seq<Job>, p: seq<nat>, w: Worker)
    requires TableOk(jobs, p, w)
    ensures TableOk(jobs, p, Signal(w))
  {
    forall i | 0 <= i < MAX_TRANSFER_JOBS ensures SlotOk(jobs[i], i in p, InFlight(Signal(w), i)) {
      assert SlotOk(jobs[i], i in p, InFlight(w, i));
    }
  }

  // ----- take, progress and finish -----

  /** A change to one slot that is not pending, and the worker's place with it. */
  lemma SlotTable(jobs: seq<Job>, p: seq<nat>, w: Worker, i: nat, job: Job, w': Worker)
    requires TableOk(jobs, p, w) && i < MAX_TRANSFER_JOBS && i !in p && job.inUse
    requires job.status != Queued && job.status != Unused && (job.status == InProgress <==> InFlight(w', i))
    requires forall j :: 0 <= j < MAX_TRANSFER_JOBS && j != i ==> InFlight(w, j) == InFlight(w', j)
    requires w'.Sending? ==> w'.slot < MAX_TRANSFER_JOBS
    ensures TableOk(jobs[i := job], p, w') && JobsAt(jobs[i := job], p) == JobsAt(jobs, p)
  {
    forall j | 0 <= j < MAX_TRANSFER_JOBS ensures SlotOk(jobs[i := job][j], j in p, InFlight(w', j)) {
      assert SlotOk(jobs[j], j in p, InFlight(w, j));
    }
  }

  lemma SlotIds(jobs: seq<Job>, accepted: seq<Job>, i: nat, job: Job)
    requires IdsOk(jobs, accepted) && i < |jobs| && jobs[i].inUse && job.jobId == jobs[i].jobId
    ensures IdsOk(jobs[i := job], accepted)
  {
    var jobs' := jobs[i := job];
    assert forall j :: 0 <= j < |jobs| && jobs'[j].inUse ==> jobs[j].inUse && jobs'[j].jobId == jobs[j].jobId;
  }

  /** The head of the ring leaves it; its job is the next of those accepted but not sent. */
  lemma PopTable(jobs: seq<Job>, p: seq<nat>, w: Worker, now: int)
    requires TableOk(jobs, p, w) && p != [] && !w.Sending?
    ensures jobs[p[0]].inUse && jobs[p[0]].status == Queued
    ensures var taken := jobs[p[0] := jobs[p[0]].(status := InProgress, updatedAt := now)];
      && TableOk(taken, p[1..], Sending(p[0], now))
      && JobsAt(jobs, p) == [jobs[p[0]]] + JobsAt(taken, p[1..])
  {
    var i, w' := p[0], Sending(p[0], now);
    var taken := jobs[i := jobs[i].(status := InProgress, updatedAt := now)];
    assert SlotOk(jobs[i], i in p, InFlight(w, i));
    forall j | 0 <= j < MAX_TRANSFER_JOBS ensures SlotOk(taken[j], j in p[1..], InFlight(w', j)) {
      assert SlotOk(jobs[j], j in p, InFlight(w, j));
      assert j in p <==> j == p[0] || j in p[1..];
    }
  }

  /** The state after the worker took slot `i`. */
  function Popped(s: Sys, i: nat): Sys
    requires Sized(s.q) && s.q.count > 0 && i < MAX_TRANSFER_JOBS
  {
    s.(q := Pop(s.q).(jobs := s.q.jobs[i := s.q.jobs[i].(status := InProgress, updatedAt := s.now)]),
       worker := Sending(i, s.now), sent := s.sent + [s.q.jobs[i]])
  }

  /** In a reachable state a taken slot is always in use: the worker never skips one. */
  lemma TakeCases(s: Sys)
    requires Inv(s) && s.worker.Looping?
    ensures if s.q.count == 0 then ApplyTake(s) == s.(worker := if s.q.running then Asleep(false) else Exited)
      else ApplyTake(s) == Popped(s, Pending(s.q)[0])
    ensures Take(s.q, s.now).1 != Skip
  {
    if s.q.count > 0 {
      PopDropsFirst(s.q);
      PopTable(s.q.jobs, Pending(s.q), s.worker, s.now);
    }
  }

  lemma PoppedInv(s: Sys)
    requires Inv(s) && s.worker.Looping? && s.q.count > 0
    ensures Inv(Popped(s, Pending(s.q)[0]))
    ensures Pending(Popped(s, Pending(s.q)[0]).q) == Pending(s.q)[1..]
  {
    var p := Pending(s.q);
    var i := p[0];
    PopDropsFirst(s.q);
    PopTable(s.q.jobs, p, s.worker, s.now);
    var s' := Popped(s, i);
    SamePending(Pop(s.q), s'.q);
    SlotIds(s.q.jobs, s.accepted, i, s'.q.jobs[i]);
    hide TableOk, IdsOk, JobsAt, Pending;
    Reassociate(s.sent, s.q.jobs[i], JobsAt(s'.q.jobs, p[1..]));
  }

  lemma Reassociate(a: seq<Job>, x: Job, b: seq<Job>)
    ensures a + ([x] + b) == a + [x] + b
  {
  }

  lemma TakeInv(s: Sys)
    requires Inv(s) && s.worker.Looping?
    ensures Inv(ApplyTake(s))
  {
    TakeCases(s);
    if s.q.count > 0 {
      PoppedInv(s);
    } else {
      WorkerTable(s.q.jobs, Pending(s.q), s.worker, if s.q.running then Asleep(false) else Exited);
    }
    hide ApplyTake, Popped, TableOk, IdsOk, Pending;
  }

  lemma WorkerTable(jobs: seq<Job>, p: seq<nat>, w: Worker, w': Worker)
    requires TableOk(jobs, p, w) && !w.Sending? && !w'.Sending?
    ensures TableOk(jobs, p, w')
  {
    forall i | 0 <= i < MAX_TRANSFER_JOBS ensures SlotOk(jobs[i], i in p, InFlight(w', i)) {
      assert SlotOk(jobs[i], i in p, InFlight(w, i));
    }
  }

  /** The slot the worker holds is in use until it finishes, so its second escape is dead too. */
  lemma HeldSlot(s: Sys)
    requires Inv(s) && s.worker.Sending?
    ensures s.q.jobs[s.worker.slot].inUse && s.q.jobs[s.worker.slot].status == InProgress
    ensures s.worker.slot !in Pending(s.q)
  {
    assert SlotOk(s.q.jobs[s.worker.slot], s.worker.slot in Pending(s.q), InFlight(s.worker, s.worker.slot));
  }

  /** The state after the slot the worker holds is rewritten. */
  function Rewritten(s: Sys, job: Job, w': Worker): Sys
    requires Typed(s) && s.worker.Sending?
  {
    s.(q := s.q.(jobs := s.q.jobs[s.worker.slot := job]), worker := w')
  }

  lemma RewrittenInv(s: Sys, job: Job, w': Worker)
    requires Inv(s) && s.worker.Sending? && (w' == s.worker || w' == Looping)
    requires job.inUse && job.jobId == s.q.jobs[s.worker.slot].jobId
    requires if w' == s.worker then job.status == InProgress else Terminal(job)
    ensures Inv(Rewritten(s, job, w')) && Pending(Rewritten(s, job, w').q) == Pending(s.q)
  {
    HeldSlot(s);
    var i := s.worker.slot;
    SlotTable(s.q.jobs, Pending(s.q), s.worker, i, job, w');
    SlotIds(s.q.jobs, s.accepted, i, job);
    SamePending(s.q, Rewritten(s, job, w').q);
    hide TableOk, IdsOk, JobsAt, Pending;
  }

  lemma ProgressInv(s: Sys, bytesSent: nat, totalBytes: nat)
    requires Inv(s) && s.worker.Sending?
    ensures Inv(Apply(s, Progressed(bytesSent, totalBytes)))
  {
    HeldSlot(s);
    hide Inv, Rewritten;
    var s' := Apply(s, Progressed(bytesSent, totalBytes));
    RewrittenInv(s, s'.q.jobs[s.worker.slot], s.worker);
    assert s' == Rewritten(s, s'.q.jobs[s.worker.slot], s.worker) by {
      RewrittenIs(s, s'.q.jobs[s.worker.slot], s.worker);
    }
  }

  lemma RewrittenIs(s: Sys, job: Job, w': Worker)
    requires Typed(s) && s.worker.Sending?
    ensures Rewritten(s, job, w') == s.(q := s.q.(jobs := s.q.jobs[s.worker.slot := job]), worker := w')
  {
  }

  lemma FinishInv(s: Sys, sent: bool)
    requires Inv(s) && s.worker.Sending?
    ensures Inv(Apply(s, Finished(sent)))
  {
    HeldSlot(s);
    hide Inv, Rewritten;
    var s' := Apply(s, Finished(sent));
    RewrittenInv(s, s'.q.jobs[s.worker.slot], Looping);
    RewrittenIs(s, s'.q.jobs[s.worker.slot], Looping);
  }

  lemma QuietInv(s: Sys, e: Event)
    requires Inv(s) && Enabled(s, e) && (e.Woke? || e.ShutDown? || e.Ticked?)
    ensures Inv(Apply(s, e))
  {
    var s' := Apply(s, e);
    SamePending(s.q, s'.q);
    if e.Woke? {
      WorkerTable(s.q.jobs, Pending(s.q), s.worker, Looping);
    } else if e.ShutDown? {
      SignalTable(s.q.jobs, Pending(s.q), s.worker);
    }
    hide TableOk, IdsOk, JobsAt, Pending;
  }

  /** Every step of every thread keeps the invariant. */
  lemma StepInv(s: Sys, e: Event)
    requires Inv(s) && Enabled(s, e)
    ensures Inv(Apply(s, e))
  {
    match e
    case Enqueued(request, jobId) => EnqueueInv(s, request, jobId);
    case Took => TakeInv(s);
    case Progressed(bytesSent, totalBytes) => ProgressInv(s, bytesSent, totalBytes);
    case Finished(sent) => FinishInv(s, sent);
    case _ => QuietInv(s, e);
  }

  lemma RunStep(states: seq<Sys>, events: seq<Event>, n: nat)
    requires Run(states, events) && n < |events|
    ensures |states| == |events| + 1 && Typed(states[n]) && Typed(states[n + 1])
    ensures Enabled(states[n], events[n]) && states[n + 1] == Apply(states[n], events[n])
  {
    hide Enabled, Apply;
    assert StepAt(states, events, n);
  }

  lemma RunTyped(states: seq<Sys>, events: seq<Event>, n: nat)
    requires Run(states, events) && n < |states|
    ensures |states| == |events| + 1 && Typed(states[n])
  {
    hide Enabled, Apply;
    if n > 0 {
      assert StepAt(states, events, n - 1);
    }
  }

  lemma {:induction false} RunInv(states: seq<Sys>, events: seq<Event>, n: nat)
    requires Run(states, events) && n < |states|
    ensures Inv(states[n])
  {
    if n == 0 {
      InitInv(states[0].now);
    } else {
      RunInv(states, events, n - 1);
      RunStep(states, events, n - 1);
      hide Run, Inv, Enabled, Apply;
      StepInv(states[n - 1], events[n - 1]);
    }
  }
}
