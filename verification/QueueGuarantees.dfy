/** What the transfer queue guarantees over every run of its interleaved steps. */
module QueueGuarantees {
  import opened Text
  import opened TransferQueue
  import opened Ring
  import opened QueueSystem

  // ----- ring and table -----

  /** In every reachable state the ring holds each queued slot once and nothing else, its indices
      fit, and the one slot in progress, if any, is the worker's. */
  lemma RingMatchesTable(states: seq<Sys>, events: seq<Event>, n: nat)
    requires Run(states, events) && n < |states|
    ensures var s := states[n];
      && s.q.tail == (s.q.head + s.q.count) % MAX_TRANSFER_JOBS
      && Distinct(Pending(s.q))
      && (forall i :: 0 <= i < MAX_TRANSFER_JOBS ==>
            && (i in Pending(s.q) <==> s.q.jobs[i].inUse && s.q.jobs[i].status == Queued)
            && (s.q.jobs[i].inUse && s.q.jobs[i].status == InProgress <==> s.worker.Sending? && s.worker.slot == i))
  {
    RunInv(states, events, n);
    hide Run;
    var s := states[n];
    forall i | 0 <= i < MAX_TRANSFER_JOBS
      ensures i in Pending(s.q) <==> s.q.jobs[i].inUse && s.q.jobs[i].status == Queued
      ensures s.q.jobs[i].inUse && s.q.jobs[i].status == InProgress <==> s.worker.Sending? && s.worker.slot == i
    {
      assert SlotOk(s.q.jobs[i], i in Pending(s.q), InFlight(s.worker, i));
    }
  }

  /** The code's three defensive exits: the worker never finds its slot out of use, before or
      after a send, and a full ring means a full table even after pruning. */
  lemma DefensiveExitsAreDead(states: seq<Sys>, events: seq<Event>, n: nat)
    requires Run(states, events) && n < |states|
    ensures var s := states[n];
      && (s.worker.Looping? ==> Take(s.q, s.now).1 != Skip)
      && (s.worker.Sending? ==> s.q.jobs[s.worker.slot].inUse)
      && (s.q.count >= MAX_TRANSFER_JOBS ==> FirstFree(Prune(s.q.jobs, s.now)) == MAX_TRANSFER_JOBS)
  {
    RunInv(states, events, n);
    hide Run;
    var s := states[n];
    if s.worker.Looping? {
      TakeCases(s);
    } else if s.worker.Sending? {
      HeldSlot(s);
    }
    if s.q.count >= MAX_TRANSFER_JOBS {
      FullRing(s);
    }
  }

  lemma FullRing(s: Sys)
    requires Inv(s) && s.q.count == MAX_TRANSFER_JOBS
    ensures FirstFree(Prune(s.q.jobs, s.now)) == MAX_TRANSFER_JOBS
  {
    Pigeonhole(Pending(s.q), MAX_TRANSFER_JOBS);
    forall i | 0 <= i < MAX_TRANSFER_JOBS ensures Prune(s.q.jobs, s.now)[i].inUse {
      assert SlotOk(s.q.jobs[i], i in Pending(s.q), InFlight(s.worker, i));
    }
  }

  // ----- order and multiplicity of sends -----

  /** Jobs are sent in the order they were accepted, each at most once, and what has not been sent
      is exactly what the ring still holds. */
  lemma SendsFollowAcceptance(states: seq<Sys>, events: seq<Event>, n: nat)
    requires Run(states, events) && n < |states|
    ensures var s := states[n];
      && s.sent <= s.accepted
      && (forall a, b :: 0 <= a < b < |s.sent| ==> s.sent[a].jobId != s.sent[b].jobId)
      && |s.accepted| == |s.sent| + s.q.count
      && (forall k :: 0 <= k < s.q.count ==> s.accepted[|s.sent| + k] == s.q.jobs[Pending(s.q)[k]])
  {
    RunInv(states, events, n);
  }

  /** The histories only grow, so a send is never taken back or reordered. */
  lemma {:induction false} HistoriesGrow(states: seq<Sys>, events: seq<Event>, m: nat, n: nat)
    requires Run(states, events) && m <= n < |states|
    ensures states[m].sent <= states[n].sent && states[m].accepted <= states[n].accepted
    decreases n - m
  {
    if m < n {
      hide Run, Apply, Enabled;
      HistoriesGrow(states, events, m, n - 1);
      RunStep(states, events, n - 1);
      HistoryStep(states[n - 1], events[n - 1]);
    }
  }

  lemma HistoryStep(s: Sys, e: Event)
    requires Typed(s) && Enabled(s, e)
    ensures s.sent <= Apply(s, e).sent && s.accepted <= Apply(s, e).accepted
  {
    hide Enqueue, Take, Progress, Finish;
  }

  // ----- acceptance -----

  /** A slot an enqueue may use: free, or finished 3600 seconds ago or more. */
  predicate Available(j: Job, now: int) {
    !j.inUse || ((j.status == Completed || j.status == Failed) && j.updatedAt + 3600 <= now)
  }

  /** In every run an enqueue is accepted exactly when an id could be made and some slot is free or
      was finished an hour ago; the guard on the ring's count never decides. */
  lemma AcceptedIff(states: seq<Sys>, events: seq<Event>, n: nat)
    requires Run(states, events) && n < |events| && events[n].Enqueued?
    ensures |states| == |events| + 1 && Typed(states[n])
    ensures |states[n + 1].accepted| > |states[n].accepted| <==>
      (events[n].jobId.Some? && exists i :: 0 <= i < MAX_TRANSFER_JOBS && Available(states[n].q.jobs[i], states[n].now))
  {
    RunInv(states, events, n);
    RunStep(states, events, n);
    hide Run;
    var s, e := states[n], events[n];
    EnqueueCases(s, e.request, e.jobId);
    if s.q.count >= MAX_TRANSFER_JOBS {
      FullRing(s);
    }
    FreeIff(s);
    hide Inv, ApplyEnqueue, FirstFree, Prune, Available;
  }

  lemma FreeIff(s: Sys)
    requires Typed(s)
    ensures FirstFree(Prune(s.q.jobs, s.now)) < MAX_TRANSFER_JOBS <==>
      exists i :: 0 <= i < MAX_TRANSFER_JOBS && Available(s.q.jobs[i], s.now)
  {
    var pruned := Prune(s.q.jobs, s.now);
    forall i | 0 <= i < MAX_TRANSFER_JOBS ensures !pruned[i].inUse <==> Available(s.q.jobs[i], s.now) {
    }
  }

  // ----- wakeups -----

  /** No lost wakeup: a worker asleep with no signal under way has nothing to do. */
  lemma NoLostWakeup(states: seq<Sys>, events: seq<Event>, n: nat)
    requires Run(states, events) && n < |states| && states[n].worker == Asleep(false)
    ensures states[n].q.running && states[n].q.count == 0
  {
    RunInv(states, events, n);
  }

  // ----- shutdown -----

  predicate WorkerEvent(e: Event) {
    e.Took? || e.Woke? || e.Finished?
  }

  /** How many steps of its own the worker is from leaving, once shut down. */
  function Remaining(s: Sys): nat {
    3 * s.q.count +
    match s.worker
    case Looping => 1
    case Asleep(_) => 2
    case Sending(_, _) => 2
    case Exited => 0
  }

  predicate IsEnqueue(e: Event) {
    e.Enqueued?
  }

  lemma DrainStep(s: Sys, e: Event)
    requires Inv(s) && !s.q.running && Enabled(s, e) && !IsEnqueue(e)
    ensures !Apply(s, e).q.running
    ensures if WorkerEvent(e) then Remaining(Apply(s, e)) < Remaining(s) else Remaining(Apply(s, e)) == Remaining(s)
  {
    if e.Took? {
      TakeCases(s);
      hide Inv, ApplyTake;
    } else {
      hide Inv;
    }
  }

  /** A wait that ends though nobody signalled. */
  predicate Spurious(s: Sys, e: Event) {
    e.Woke? && s.worker == Asleep(false)
  }

  /** After shutdown the worker always has a step to take until it has left, and never has to wait
      for a spurious wakeup to take it: if it sleeps, it has been signalled. */
  lemma DrainProgress(s: Sys)
    requires Inv(s) && !s.q.running && !s.worker.Exited?
    ensures s.worker.Looping? || s.worker.Sending? || s.worker == Asleep(true)
    ensures exists e :: WorkerEvent(e) && Enabled(s, e) && !Spurious(s, e)
  {
    var e := match s.worker case Looping => Took case Asleep(_) => Woke case _ => Finished(true);
    assert WorkerEvent(e) && Enabled(s, e) && !Spurious(s, e);
  }

  function WorkerSteps(events: seq<Event>, from: nat, till: nat): nat
    requires from <= till <= |events|
  {
    if from == till then 0 else WorkerSteps(events, from, till - 1) + (if WorkerEvent(events[till - 1]) then 1 else 0)
  }

  lemma {:induction false} DrainBound(states: seq<Sys>, events: seq<Event>, from: nat, till: nat)
    requires Run(states, events) && from <= till < |states| && !states[from].q.running
    requires forall n :: from <= n < till ==> !IsEnqueue(events[n])
    ensures !states[till].q.running
    ensures Remaining(states[till]) + WorkerSteps(events, from, till) <= Remaining(states[from])
    decreases till
  {
    if from < till {
      DrainBound(states, events, from, till - 1);
      RunInv(states, events, till - 1);
      RunStep(states, events, till - 1);
      hide Run, Inv, Apply, Enabled, Remaining;
      DrainStep(states[till - 1], events[till - 1]);
    }
  }

  /** Main result: from shutdown on, with no enqueue after it, the worker leaves after at most
      3 * 128 + 2 steps of its own, is never left asleep without a signal until then, and once it
      has left no job is queued or in progress, unless one was accepted after it had already gone. */
  lemma ShutdownDrains(states: seq<Sys>, events: seq<Event>, from: nat, till: nat)
    requires Run(states, events) && from <= till < |states| && !states[from].q.running
    requires forall n :: from <= n < till ==> !IsEnqueue(events[n])
    ensures WorkerSteps(events, from, till) <= 3 * MAX_TRANSFER_JOBS + 2
    ensures !states[till].worker.Exited? ==>
      && (states[till].worker.Looping? || states[till].worker.Sending? || states[till].worker == Asleep(true))
      && exists e :: WorkerEvent(e) && Enabled(states[till], e) && !Spurious(states[till], e)
    ensures states[till].worker.Exited? && states[till].late == 0 ==>
      forall i :: 0 <= i < MAX_TRANSFER_JOBS ==>
        states[till].q.jobs[i].status != Queued && states[till].q.jobs[i].status != InProgress
    ensures states[till].worker.Exited? && states[till].late == 0 ==> states[till].sent == states[till].accepted
  {
    DrainBound(states, events, from, till);
    RunInv(states, events, from);
    RunInv(states, events, till);
    hide Run;
    var s := states[till];
    if !s.worker.Exited? {
      DrainProgress(s);
    } else if s.late == 0 {
      forall i | 0 <= i < MAX_TRANSFER_JOBS ensures s.q.jobs[i].status != Queued && s.q.jobs[i].status != InProgress {
        assert SlotOk(s.q.jobs[i], i in Pending(s.q), InFlight(s.worker, i));
      }
    }
  }

  /** Once the worker has left, the jobs accepted after that, and only those, are what the ring
      holds and what was not sent; so a job is stranded exactly when there was one. */
  lemma StrandedIff(states: seq<Sys>, events: seq<Event>, n: nat)
    requires Run(states, events) && n < |states| && states[n].worker.Exited?
    ensures var s := states[n];
      && s.q.count == s.late && |s.accepted| == |s.sent| + s.late
      && s.sent == s.accepted[..|s.sent|]
      && (forall k :: 0 <= k < s.late ==> s.accepted[|s.sent| + k] == s.q.jobs[Pending(s.q)[k]])
    ensures (exists i :: 0 <= i < MAX_TRANSFER_JOBS && states[n].q.jobs[i].status == Queued) <==> states[n].late > 0
  {
    RunInv(states, events, n);
    hide Run;
    var s := states[n];
    if s.late > 0 {
      var i := Pending(s.q)[0];
      assert SlotOk(s.q.jobs[i], i in Pending(s.q), InFlight(s.worker, i));
    } else {
      forall i | 0 <= i < MAX_TRANSFER_JOBS ensures s.q.jobs[i].status != Queued {
        assert SlotOk(s.q.jobs[i], i in Pending(s.q), InFlight(s.worker, i));
      }
    }
  }

  lemma GoneStep(s: Sys, e: Event)
    requires Typed(s) && Enabled(s, e) && s.worker.Exited?
    ensures Apply(s, e).worker.Exited? && Apply(s, e).sent == s.sent && s.late <= Apply(s, e).late
  {
    hide Enqueue;
  }

  /** And they are never sent: a worker that has left stays away, and nothing is sent after it. */
  lemma {:induction false} StrandedForGood(states: seq<Sys>, events: seq<Event>, m: nat, n: nat)
    requires Run(states, events) && m <= n < |states| && states[m].worker.Exited?
    ensures states[n].worker.Exited? && states[n].sent == states[m].sent && states[m].late <= states[n].late
    decreases n
  {
    RunTyped(states, events, n);
    hide Run, Apply, Enabled, Typed;
    if m < n {
      StrandedForGood(states, events, m, n - 1);
      RunStep(states, events, n - 1);
      GoneStep(states[n - 1], events[n - 1]);
    }
  }

  /** Such a run: shut down, let the worker leave, then enqueue while the caller still may. */
  lemma LateEnqueueIsStranded(request: Request) returns (states: seq<Sys>, events: seq<Event>)
    ensures Run(states, events) && |events| == 3
    ensures states[3].worker.Exited? && |states[3].accepted| == 1 && states[3].sent == []
    ensures states[3].late == 1
  {
    var s0 := Init(0);
    events := [ShutDown, Took, Enqueued(request, Some("1-a"))];
    var s1 := Apply(s0, events[0]);
    var s2 := Apply(s1, events[1]);
    var s3 := Apply(s2, events[2]);
    states := [s0, s1, s2, s3];
    assert Prune(s2.q.jobs, s2.now)[0] == NO_JOB;
    assert FirstFree(Prune(s2.q.jobs, s2.now)) == 0;
  }
}
