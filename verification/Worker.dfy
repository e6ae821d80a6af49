/** The worker's loop run by itself after a shutdown: it empties the ring in order and leaves. */
module Worker {
  import opened Text
  import opened TransferQueue
  import opened Ring
  import opened QueueSystem

  /** A queue with no thread in its critical sections and the worker between two jobs. */
  predicate AtRest(q: Queue) {
    Sized(q) && TailFollows(q) && TableOk(q.jobs, Pending(q), Looping)
  }

  /** One turn of the loop on a non-empty ring, whatever the send's outcome. */
  function Turn(q: Queue, sent: bool, now: int): Queue
    requires Sized(q)
  {
    var (q', taken) := Take(q, now);
    if taken.Send? && taken.slot < MAX_TRANSFER_JOBS then Finish(q', taken.slot, sent, now) else q'
  }

  lemma TurnSendsFirst(q: Queue, sent: bool, now: int)
    requires AtRest(q) && q.count > 0
    ensures var p := Pending(q);
      && Take(q, now).1 == Send(p[0])
      && AtRest(Turn(q, sent, now))
      && Pending(Turn(q, sent, now)) == p[1..]
      && JobsAt(q.jobs, p) == [q.jobs[p[0]]] + JobsAt(Turn(q, sent, now).jobs, p[1..])
      && Turn(q, sent, now).count == q.count - 1
      && Turn(q, sent, now).running == q.running
  {
    var p := Pending(q);
    PopDropsFirst(q);
    PopTable(q.jobs, p, Looping, now);
    var (q1, taken) := Take(q, now);
    var q2 := Turn(q, sent, now);
    SamePending(Pop(q), q1);
    SamePending(q1, q2);
    assert q1.jobs[p[0]].inUse;
    TakenIsNotPending(q1.jobs, p[1..], p[0], now);
    SlotTable(q1.jobs, p[1..], Sending(p[0], now), p[0], q2.jobs[p[0]], Looping);
    assert q2.jobs == q1.jobs[p[0] := q2.jobs[p[0]]];
  }

  lemma TakenIsNotPending(jobs: seq<Job>, p: seq<nat>, i: nat, now: int)
    requires TableOk(jobs, p, Sending(i, now))
    ensures i !in p
  {
    assert SlotOk(jobs[i], i in p, InFlight(Sending(i, now), i));
  }

  lemma RestEmpty(q: Queue)
    requires AtRest(q) && q.count == 0
    ensures forall i :: 0 <= i < MAX_TRANSFER_JOBS ==> q.jobs[i].status != Queued && q.jobs[i].status != InProgress
  {
    forall i | 0 <= i < MAX_TRANSFER_JOBS ensures q.jobs[i].status != Queued && q.jobs[i].status != InProgress {
      assert SlotOk(q.jobs[i], i in Pending(q), InFlight(Looping, i));
    }
  }

  /** What a send is given of its job. */
  datatype Handed = Handed(jobId: string, filepath: string, targetIp: string, targetPort: nat, pairToken: string)

  function HandedOf(j: Job): Handed {
    Handed(j.jobId, j.filepath, j.targetIp, j.targetPort, j.pairToken)
  }

  function AllHanded(jobs: seq<Job>): (r: seq<Handed>)
    ensures |r| == |jobs| && forall i :: 0 <= i < |jobs| ==> r[i] == HandedOf(jobs[i])
  {
    seq(|jobs|, i requires 0 <= i < |jobs| => HandedOf(jobs[i]))
  }

  lemma HandedFirst(done: seq<Handed>, first: Job, rest: seq<Job>)
    ensures done + AllHanded([first] + rest) == done + [HandedOf(first)] + AllHanded(rest)
  {
  }

  /** One turn of the loop: `handed` is what was given to the network, and `again` is false when the
      worker leaves. */
  method TakeTurn(queue: TransferQueue, now: int)
    returns (again: bool, handed: Option<Handed>, ghost sent: bool)
    requires queue.Valid() && AtRest(queue.State()) && !queue.queueRunning
    modifies queue, queue.jobs, queue.store
    ensures queue.Valid() && again == (old(queue.queueCount) > 0)
    ensures queue.State() == if again then Turn(old(queue.State()), sent, now) else old(queue.State())
    ensures again ==> handed == Some(HandedOf(old(queue.jobs[Pending(queue.State())[0]])))
  {
    var ok: bool := *;
    sent := ok;
    handed := None;
    ghost var q := queue.State();
    if q.count > 0 {
      TurnSendsFirst(q, sent, now);
    }
    hide AtRest, Pending, JobsAt, Finish;
    var taken := queue.WorkerTake(now);
    match taken
    case Exit => again := false;
    case Sleep => again := false;
    case Skip => again := true;
    case Send(i) =>
      handed := Some(HandedOf(queue.jobs[i]));
      queue.WorkerFinish(i, ok, now);
      again := true;
  }

  /** `sends` lists what was handed to the network, in order. */
  method RunAfterShutdown(queue: TransferQueue, now: int) returns (sends: seq<Handed>, turns: nat)
    requires queue.Valid() && AtRest(queue.State()) && !queue.queueRunning
    modifies queue, queue.jobs, queue.store
    ensures queue.Valid() && AtRest(queue.State()) && queue.queueCount == 0
    ensures sends == AllHanded(old(JobsAt(queue.State().jobs, Pending(queue.State()))))
    ensures turns == old(queue.queueCount)
    ensures forall i :: 0 <= i < MAX_TRANSFER_JOBS ==>
      queue.jobs[i].status != Queued && queue.jobs[i].status != InProgress
  {
    sends, turns := [], 0;
    ghost var q := queue.State();
    ghost var all := JobsAt(q.jobs, Pending(q));
    var again := true;
    while again
      invariant queue.Valid() && q == queue.State() && AtRest(q) && !q.running
      invariant AllHanded(all) == sends + AllHanded(JobsAt(q.jobs, Pending(q)))
      invariant turns + q.count == |all|
      invariant !again ==> q.count == 0
      decreases again, q.count
    {
      ghost var before, sent := q, false;
      var handed: Option<Handed>;
      again, handed, sent := TakeTurn(queue, now);
      if again {
        TurnSendsFirst(before, sent, now);
        var after := Turn(before, sent, now);
        HandedFirst(sends, before.jobs[Pending(before)[0]], JobsAt(after.jobs, Pending(before)[1..]));
        hide AtRest, JobsAt, Pending, Turn, AllHanded;
        sends := sends + [handed.value];
        turns := turns + 1;
      }
      q := queue.State();
    }
    RestEmpty(q);
  }
}
