/** What a status query shows of a job, told from the events alone: the slot of a job holds what its
    last event said. */
module QueueRecords {
  import opened Text
  import opened TransferQueue
  import opened Ring
  import opened QueueSystem
  import opened QueueLifetimes

  datatype Report = NoReport | Report(status: Status, error: string, bytesSent: nat, totalBytes: nat, at: int)

  /** The id of the job whose send began last. */
  function LastSent(s: Sys): Option<string> {
    if s.sent == [] then None else Some(s.sent[|s.sent| - 1].jobId)
  }

  /** The step accepted, began to send, reported on or finished the job with this id. */
  predicate About(s: Sys, s': Sys, e: Event, id: string) {
    match e
    case Enqueued(_, jobId) => jobId == Some(id) && |s.accepted| < |s'.accepted|
    case Took => |s.sent| < |s'.sent| && LastSent(s') == Some(id)
    case Progressed(_, _) => LastSent(s) == Some(id)
    case Finished(_) => LastSent(s) == Some(id)
    case _ => false
  }

  function Next(r: Report, e: Event, now: int): Report {
    match e
    case Enqueued(_, _) => Report(Queued, "", 0, 0, now)
    case Took => if r.Report? then r.(status := InProgress, at := now) else r
    case Progressed(sent, total) =>
      if r.Report? then r.(status := InProgress, bytesSent := sent, totalBytes := total, at := now) else r
    case Finished(true) => if r.Report? then r.(status := Completed, error := "", at := now) else r
    case Finished(false) =>
      if r.Report? then
        r.(status := Failed, error := "Falha ao enviar o arquivo para o peer remoto", at := now)
      else r
    case _ => r
  }

  /** The report on a job after `n` steps: each step about it has its say. */
  function ReportOf(states: seq<Sys>, events: seq<Event>, id: string, n: nat): Report
    requires |states| == |events| + 1 && n <= |events|
  {
    if n == 0 then NoReport
    else
      var r := ReportOf(states, events, id, n - 1);
      if About(states[n - 1], states[n], events[n - 1], id) then Next(r, events[n - 1], states[n - 1].now) else r
  }

  function Shown(j: Job): Report {
    Report(j.status, j.errorMessage, j.bytesSent, j.totalBytes, j.updatedAt)
  }

  // ----- one step -----

  /** While the worker sends, the last send begun is the one it is at. */
  predicate SendingLast(s: Sys)
    requires Typed(s)
  {
    s.worker.Sending? ==> LastSent(s) == Some(s.q.jobs[s.worker.slot].jobId)
  }

  /** What a step makes of the job that is in slot `i` after it. */
  predicate SlotStep(s: Sys, s': Sys, e: Event, i: nat)
    requires Typed(s) && Typed(s') && i < MAX_TRANSFER_JOBS
  {
    var a, b := s.q.jobs[i], s'.q.jobs[i];
    b.inUse ==>
      if About(s, s', e, b.jobId) then
        Shown(b) == Next(Shown(a), e, s.now) && (e.Enqueued? || (a.inUse && a.jobId == b.jobId))
      else Shown(b) == Shown(a) && a.inUse && a.jobId == b.jobId
  }

  lemma EnqueueSlot(s: Sys, request: Request, jobId: Option<string>, i: nat)
    requires Inv(s) && Enabled(s, Enqueued(request, jobId)) && i < MAX_TRANSFER_JOBS
    ensures SlotStep(s, ApplyEnqueue(s, request, jobId), Enqueued(request, jobId), i)
  {
    EnqueueCases(s, request, jobId);
    assert IdsOk(s.q.jobs, s.accepted);
    hide ApplyEnqueue, TableOk, JobsAt, Pending, FirstFree;
  }

  lemma TakeSlot(s: Sys, i: nat)
    requires Inv(s) && s.worker.Looping? && i < MAX_TRANSFER_JOBS
    ensures SlotStep(s, ApplyTake(s), Took, i) && SendingLast(ApplyTake(s))
  {
    TakeCases(s);
    assert IdsOk(s.q.jobs, s.accepted);
    if s.q.count > 0 {
      PopTable(s.q.jobs, Pending(s.q), s.worker, s.now);
    }
    hide ApplyTake, TableOk, JobsAt, Pending;
  }

  lemma WorkerSlot(s: Sys, e: Event, i: nat)
    requires Inv(s) && Enabled(s, e) && SendingLast(s) && i < MAX_TRANSFER_JOBS && (e.Progressed? || e.Finished?)
    ensures SlotStep(s, Apply(s, e), e, i)
  {
    HeldSlot(s);
    assert IdsOk(s.q.jobs, s.accepted);
    hide TableOk, JobsAt, Pending, Enqueue, Take;
  }

  lemma StepSlot(s: Sys, e: Event, i: nat)
    requires Inv(s) && Enabled(s, e) && SendingLast(s) && i < MAX_TRANSFER_JOBS
    ensures SlotStep(s, Apply(s, e), e, i)
  {
    match e
    case Enqueued(request, jobId) =>
      hide Inv, SlotStep;
      EnqueueSlot(s, request, jobId, i);
    case Took =>
      hide Inv, SlotStep;
      TakeSlot(s, i);
    case Progressed(_, _) =>
      hide Inv, SlotStep;
      WorkerSlot(s, e, i);
    case Finished(_) =>
      hide Inv, SlotStep;
      WorkerSlot(s, e, i);
    case _ =>
      QuietSlot(s, e, i);
  }

  lemma QuietSlot(s: Sys, e: Event, i: nat)
    requires Inv(s) && Enabled(s, e) && i < MAX_TRANSFER_JOBS && (e.Woke? || e.ShutDown? || e.Ticked?)
    ensures SlotStep(s, Apply(s, e), e, i)
  {
    var a := s.q.jobs[i];
    assert SlotOk(a, i in Pending(s.q), InFlight(s.worker, i));
  }

  lemma StepSendingLast(s: Sys, e: Event)
    requires Inv(s) && Enabled(s, e) && SendingLast(s)
    ensures SendingLast(Apply(s, e))
  {
    if e.Took? {
      TakeSlot(s, 0);
    } else if s.worker.Sending? && !e.Finished? {
      HeldJobIsStable(s, e);
    }
    hide Inv, ApplyTake, Enqueue;
  }

  // ----- over whole runs -----

  lemma {:induction false} RunSendingLast(states: seq<Sys>, events: seq<Event>, n: nat)
    requires Run(states, events) && n < |states|
    ensures Typed(states[n]) && SendingLast(states[n])
    decreases n
  {
    RunTyped(states, events, n);
    if n > 0 {
      RunSendingLast(states, events, n - 1);
      RunInv(states, events, n - 1);
      RunStep(states, events, n - 1);
      hide Run, Inv, Enabled, Apply, SendingLast;
      StepSendingLast(states[n - 1], events[n - 1]);
    }
  }

  /** Main result: in every run each slot in use shows the report on its job: the status, the error,
      the two byte counts and the time that the last step about that job gave it. */
  lemma {:induction false} SlotShowsReport(states: seq<Sys>, events: seq<Event>, n: nat, i: nat)
    requires Run(states, events) && n < |states| && i < MAX_TRANSFER_JOBS
    requires Typed(states[n]) && states[n].q.jobs[i].inUse
    ensures |states| == |events| + 1
    ensures Shown(states[n].q.jobs[i]) == ReportOf(states, events, states[n].q.jobs[i].jobId, n)
    decreases n
  {
    hide Run, Inv, Enabled, Apply, SendingLast, About, Next, SlotStep;
    RunTyped(states, events, n);
    StartsEmpty(states, events, i);
    assert n > 0;
    RunStep(states, events, n - 1);
    RunInv(states, events, n - 1);
    RunSendingLast(states, events, n - 1);
    var s, e := states[n - 1], events[n - 1];
    StepSlot(s, e, i);
    var b := states[n].q.jobs[i];
    SlotCases(s, states[n], e, i);
    if About(s, states[n], e, b.jobId) && e.Enqueued? {
      EnqueueStarts(ReportOf(states, events, b.jobId, n - 1), Shown(s.q.jobs[i]), e, s.now);
    } else {
      SlotShowsReport(states, events, n - 1, i);
    }
  }

  lemma StartsEmpty(states: seq<Sys>, events: seq<Event>, i: nat)
    requires Run(states, events) && i < MAX_TRANSFER_JOBS
    ensures |states| > 0 && Typed(states[0]) && !states[0].q.jobs[i].inUse
  {
    hide StepAt;
  }

  lemma SlotCases(s: Sys, s': Sys, e: Event, i: nat)
    requires Typed(s) && Typed(s') && i < MAX_TRANSFER_JOBS && SlotStep(s, s', e, i) && s'.q.jobs[i].inUse
    ensures var a, b := s.q.jobs[i], s'.q.jobs[i];
      && Shown(b) == (if About(s, s', e, b.jobId) then Next(Shown(a), e, s.now) else Shown(a))
      && ((About(s, s', e, b.jobId) && e.Enqueued?) || (a.inUse && a.jobId == b.jobId))
  {
    hide About, Next;
  }

  lemma EnqueueStarts(r: Report, r': Report, e: Event, now: int)
    requires e.Enqueued?
    ensures Next(r, e, now) == Next(r', e, now)
  {
  }

  /** The worker finished this job at step `f`. */
  predicate FinishedAt(states: seq<Sys>, events: seq<Event>, id: string, f: int) {
    0 <= f < |events| && f < |states| && events[f].Finished? && LastSent(states[f]) == Some(id)
  }

  lemma {:induction false} ReportEnds(states: seq<Sys>, events: seq<Event>, id: string, n: nat) returns (f: nat)
    requires |states| == |events| + 1 && n <= |events|
    requires var r := ReportOf(states, events, id, n); r.Report? && (r.status == Completed || r.status == Failed)
    ensures f < n && FinishedAt(states, events, id, f)
    ensures var r := ReportOf(states, events, id, n);
      r.at == states[f].now && (r.status == Completed <==> events[f].sent)
  {
    assert n > 0;
    if About(states[n - 1], states[n], events[n - 1], id) {
      f := n - 1;
    } else {
      f := ReportEnds(states, events, id, n - 1);
    }
  }

  /** A finished job was finished by a step of the worker, at the time it shows, and is completed
      exactly when that send had succeeded. */
  lemma FinishedJobIsDated(states: seq<Sys>, events: seq<Event>, n: nat, i: nat) returns (f: nat)
    requires Run(states, events) && n < |states| && i < MAX_TRANSFER_JOBS && Typed(states[n])
    requires var job := states[n].q.jobs[i]; job.inUse && (job.status == Completed || job.status == Failed)
    ensures f < n && FinishedAt(states, events, states[n].q.jobs[i].jobId, f)
    ensures states[n].q.jobs[i].updatedAt == states[f].now
    ensures states[n].q.jobs[i].status == Completed <==> events[f].sent
  {
    SlotShowsReport(states, events, n, i);
    hide Run, ReportOf, FinishedAt;
    f := ReportEnds(states, events, states[n].q.jobs[i].jobId, n);
  }

  /** The id was finished at `f`, and some later state before `n` is at least 3600 seconds on. */
  predicate FinishedAnHourBefore(states: seq<Sys>, events: seq<Event>, id: string, f: int, n: nat) {
    FinishedAt(states, events, id, f) && exists c :: f < c < n && c < |states| && states[f].now + 3600 <= states[c].now
  }

  /** So an accepted id is answerable at every later time until an hour after its own finish. */
  lemma AnswerableForAnHour(states: seq<Sys>, events: seq<Event>, m: nat, n: nat)
    requires Run(states, events) && m < n < |states| && |states| == |events| + 1
    requires events[m].Enqueued? && |states[m + 1].accepted| > |states[m].accepted|
    ensures events[m].jobId.Some?
    ensures (exists f :: FinishedAnHourBefore(states, events, events[m].jobId.value, f, n))
      || (var r := Lookup(states[n].q.jobs, events[m].jobId.value);
          r.Some? && r.value.targetIp == events[m].request.targetIp
          && r.value.targetPort == events[m].request.targetPort)
  {
    AcceptedIdIsAnswerable(states, events, m, n);
    var id := events[m].jobId.value;
    hide Lookup;
    if i :| PrunedBetween(states, m, n, i, id) {
      var c :| m <= c < n && PrunedAt(states, c, i, id);
      RunTyped(states, events, c);
      hide Run;
      var f := FinishedJobIsDated(states, events, c, i);
      assert FinishedAnHourBefore(states, events, id, f, n);
    }
  }
}
