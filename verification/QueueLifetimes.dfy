/** What happens to one job over a run: its slot is its own from acceptance to pruning. */
module QueueLifetimes {
  import opened Text
  import opened TransferQueue
  import opened Ring
  import opened QueueSystem

  function Rank(status: Status): nat {
    match status
    case Unused => 0
    case Queued => 1
    case InProgress => 2
    case Completed => 3
    case Failed => 3
  }

  /** One slot before and after some steps that did not free it: the same job, no further back. */
  predicate SameJob(a: Job, b: Job) {
    && a.inUse && b.inUse
    && b.jobId == a.jobId && b.targetIp == a.targetIp && b.targetPort == a.targetPort
    && b.pairToken == a.pairToken && b.createdAt == a.createdAt
    && Rank(a.status) <= Rank(b.status)
    && (b.filepath == a.filepath || (b.status == Completed && b.filepath == ""))
    && (Terminal(a) ==> b == a)
  }

  lemma EnqueueKeepsJob(s: Sys, request: Request, jobId: Option<string>, i: nat)
    requires Typed(s) && i < MAX_TRANSFER_JOBS && s.q.jobs[i].inUse
    ensures ApplyEnqueue(s, request, jobId).q.jobs[i] == s.q.jobs[i] || Prunable(s.q.jobs[i], s.now)
  {
    EnqueueCases(s, request, jobId);
    hide ApplyEnqueue;
  }

  lemma TakeKeepsJob(s: Sys, i: nat)
    requires Inv(s) && s.worker.Looping? && i < MAX_TRANSFER_JOBS && s.q.jobs[i].inUse
    ensures SameJob(s.q.jobs[i], ApplyTake(s).q.jobs[i])
  {
    TakeCases(s);
    if s.q.count > 0 {
      PopTable(s.q.jobs, Pending(s.q), s.worker, s.now);
    }
    hide Inv, ApplyTake, Pending;
  }

  /** One step keeps a job in its slot unless it prunes it, an hour after its last update. */
  lemma StepKeepsJob(s: Sys, e: Event, i: nat)
    requires Inv(s) && Enabled(s, e) && i < MAX_TRANSFER_JOBS && s.q.jobs[i].inUse
    ensures SameJob(s.q.jobs[i], Apply(s, e).q.jobs[i]) || Prunable(s.q.jobs[i], s.now)
  {
    match e
    case Enqueued(request, jobId) =>
      EnqueueKeepsJob(s, request, jobId, i);
      hide Inv, ApplyEnqueue;
    case Took =>
      TakeKeepsJob(s, i);
      hide Inv, ApplyTake;
    case _ =>
      if s.worker.Sending? {
        HeldSlot(s);
      }
      hide Inv, Enqueue, Take;
      OwnStepKeepsJob(s, e, i);
  }

  lemma OwnStepKeepsJob(s: Sys, e: Event, i: nat)
    requires Typed(s) && Enabled(s, e) && !e.Enqueued? && !e.Took? && i < MAX_TRANSFER_JOBS && s.q.jobs[i].inUse
    requires s.worker.Sending? ==> s.q.jobs[s.worker.slot].status == InProgress
    ensures SameJob(s.q.jobs[i], Apply(s, e).q.jobs[i])
  {
    hide Enqueue, Take, ApplyEnqueue, ApplyTake;
  }

  /** What the worker reads of its job with the lock released. */
  predicate SameInput(a: Job, b: Job) {
    && b.inUse && b.status == InProgress && b.jobId == a.jobId && b.filepath == a.filepath
    && b.targetIp == a.targetIp && b.targetPort == a.targetPort && b.pairToken == a.pairToken
  }

  lemma HeldJobIsStable(s: Sys, e: Event)
    requires Inv(s) && Enabled(s, e) && s.worker.Sending? && !e.Finished?
    ensures Apply(s, e).worker == s.worker
    ensures SameInput(s.q.jobs[s.worker.slot], Apply(s, e).q.jobs[s.worker.slot])
  {
    HeldSlot(s);
    if e.Enqueued? {
      EnqueueKeepsJob(s, e.request, e.jobId, s.worker.slot);
      EnqueueCases(s, e.request, e.jobId);
    }
    hide Inv, ApplyEnqueue, ApplyTake;
  }

  /** From the moment a send begins until it finishes, no step of any thread changes what the
      worker reads without the lock. */
  lemma {:induction false} SendReadsStableJob(states: seq<Sys>, events: seq<Event>, m: nat, n: nat)
    requires Run(states, events) && m <= n < |states| && states[m].worker.Sending?
    requires forall k :: m <= k < n ==> !events[k].Finished?
    ensures states[n].worker == states[m].worker
    ensures SameInput(states[m].q.jobs[states[m].worker.slot], states[n].q.jobs[states[m].worker.slot])
    decreases n
  {
    RunTyped(states, events, n);
    hide Run, Inv, Apply, Enabled;
    RunInv(states, events, m);
    HeldSlot(states[m]);
    if m < n {
      RunInv(states, events, n - 1);
      RunStep(states, events, n - 1);
      SendReadsStableJob(states, events, m, n - 1);
      HeldJobIsStable(states[n - 1], events[n - 1]);
    }
  }

  /** The job is pruned by the step from state `c`, at least an hour after its last update. */
  predicate PrunedAt(states: seq<Sys>, c: int, i: nat, jobId: string) {
    && 0 <= c < |states| && i < |states[c].q.jobs|
    && var job := states[c].q.jobs[i];
       && job.inUse && job.jobId == jobId && (job.status == Completed || job.status == Failed)
       && job.updatedAt + 3600 <= states[c].now
  }

  predicate PrunedBetween(states: seq<Sys>, m: nat, n: nat, i: nat, jobId: string) {
    exists c :: m <= c < n && PrunedAt(states, c, i, jobId)
  }

  lemma PrunedLast(states: seq<Sys>, m: nat, n: nat, i: nat, jobId: string)
    requires m <= n && (PrunedBetween(states, m, n, i, jobId) || PrunedAt(states, n, i, jobId))
    ensures PrunedBetween(states, m, n + 1, i, jobId)
  {
  }

  /** From any moment on, a job keeps its slot, its target and its token, and only moves forward,
      until it is pruned. */
  lemma {:induction false} JobKeepsSlot(states: seq<Sys>, events: seq<Event>, m: nat, n: nat, i: nat)
    requires Run(states, events) && m <= n < |states| && i < MAX_TRANSFER_JOBS && states[m].q.jobs[i].inUse
    ensures SameJob(states[m].q.jobs[i], states[n].q.jobs[i])
      || PrunedBetween(states, m, n, i, states[m].q.jobs[i].jobId)
    decreases n
  {
    RunTyped(states, events, m);
    hide Run, Inv, Apply, Enabled, Prunable, SameJob, PrunedBetween;
    var job := states[m].q.jobs[i];
    if m == n {
      SameJobReflexive(job);
    } else {
      JobKeepsSlot(states, events, m, n - 1, i);
      if SameJob(job, states[n - 1].q.jobs[i]) {
        RunKeepsJob(states, events, n - 1, i, job);
      } else {
        PrunedLast(states, m, n - 1, i, job.jobId);
      }
      if PrunedAt(states, n - 1, i, job.jobId) {
        PrunedLast(states, m, n - 1, i, job.jobId);
      }
    }
  }

  lemma RunKeepsJob(states: seq<Sys>, events: seq<Event>, n: nat, i: nat, job: Job)
    requires Run(states, events) && n < |events| && i < MAX_TRANSFER_JOBS
    requires |states| == |events| + 1 && Typed(states[n]) && Typed(states[n + 1])
    requires SameJob(job, states[n].q.jobs[i])
    ensures SameJob(job, states[n + 1].q.jobs[i]) || PrunedAt(states, n, i, job.jobId)
  {
    hide Run, Inv, Apply, Enabled;
    RunInv(states, events, n);
    RunStep(states, events, n);
    StepKeepsJob(states[n], events[n], i);
  }

  lemma SameJobReflexive(a: Job)
    requires a.inUse
    ensures SameJob(a, a)
  {
  }

  /** A status query for an id in use answers with that very slot. */
  lemma LookupFinds(s: Sys, i: nat)
    requires Inv(s) && i < MAX_TRANSFER_JOBS && s.q.jobs[i].inUse
    ensures Lookup(s.q.jobs, s.q.jobs[i].jobId) == Some(s.q.jobs[i])
  {
    var r := Lookup(s.q.jobs, s.q.jobs[i].jobId);
    hide Lookup;
    var j :| r.Some? ==>
      0 <= j < |s.q.jobs| && s.q.jobs[j].inUse && s.q.jobs[j].jobId == s.q.jobs[i].jobId && r.value == s.q.jobs[j];
    assert IdsOk(s.q.jobs, s.accepted);
  }

  /** Main result: the id an enqueue returned is answerable at every later time, with the same
      target, until at least 3600 seconds after the job's terminal update. */
  lemma AcceptedIdIsAnswerable(states: seq<Sys>, events: seq<Event>, m: nat, n: nat)
    requires Run(states, events) && m < n < |states|
    requires events[m].Enqueued? && |states[m + 1].accepted| > |states[m].accepted|
    ensures events[m].jobId.Some?
    ensures var id, request := events[m].jobId.value, events[m].request;
      || (exists i :: PrunedBetween(states, m, n, i, id))
      || (var r := Lookup(states[n].q.jobs, id);
          r.Some? && r.value.jobId == id && r.value.targetIp == request.targetIp
          && r.value.targetPort == request.targetPort && r.value.createdAt == states[m].now)
  {
    RunInv(states, events, n);
    RunStep(states, events, m);
    EnqueueCases(states[m], events[m].request, events[m].jobId);
    var i := FirstFree(Pruned(states[m]).jobs);
    hide Run, Inv, ApplyEnqueue, FirstFree;
    JobKeepsSlot(states, events, m + 1, n, i);
    if SameJob(states[m + 1].q.jobs[i], states[n].q.jobs[i]) {
      LookupFinds(states[n], i);
    } else {
      assert PrunedBetween(states, m, n, i, events[m].jobId.value);
    }
  }
}
