/** When a request has an error and when its file is kept, told from its callbacks alone. */
module RequestVerdicts {
  import opened Text
  import opened Storage
  import opened Requests
  import opened RequestGuarantees
  import opened Staging
  import opened StagingGuarantees
  import TQ = TransferQueue
  import QS = QueueSystem

  // ----- the verdict, from events -----

  predicate Concerns(e: Event, id: nat) {
    match e
    case Authorized(k, _) => k == id
    case Chunked(k, _) => k == id
    case Processed(k, _) => k == id
    case _ => false
  }

  /** The file bytes from the first named part on. */
  function NamedBytes(log: Log): int {
    |log.bytes| - |log.unnamed|
  }

  /** What is wrong with a callback, given the ones before it; 0 if nothing is. A file that cannot be
      opened or written is an error of the server, one above 100 MiB one of the client. */
  function Fault(log: Log, e: Event): nat {
    match e
    case Authorized(_, auth) =>
      if log.auth.Some? || auth == Granted then 0 else if auth == RateLimited then 429 else 401
    case Chunked(_, FileChunk(filename, data, token, created, written)) =>
      if !log.named && filename.Some? && (token.None? || !created) then 500
      else if (!log.named && filename.None?) || data == "" then 0
      else if NamedBytes(log) + |data| > 104857600 then 413
      else if written < |data| then 500
      else 0
    case Processed(_, processed) => if processed then 0 else 400
    case _ => 0
  }

  /** The request's status after `n` events: the first fault's, except that the authorization check
      sets its own whenever it comes. */
  function Verdict(events: seq<Event>, id: nat, n: nat): nat
    requires n <= |events|
  {
    if n == 0 || (events[n - 1].Began? && events[n - 1].id == id) then 200
    else
      var v, e := Verdict(events, id, n - 1), events[n - 1];
      var fault := Fault(LogOf(events, id, n - 1), e);
      if Concerns(e, id) && fault != 0 && (v < 400 || e.Authorized?) then fault else v
  }

  /** No callback since the request began was at fault. */
  predicate Faultless(events: seq<Event>, id: nat, n: nat)
    requires n <= |events|
  {
    forall k :: BegunBy(events, id, n) <= k < n && Concerns(events[k], id) ==>
      Fault(LogOf(events, id, k), events[k]) == 0
  }

  /** The place after the request's beginning. */
  function BegunBy(events: seq<Event>, id: nat, n: nat): (b: nat)
    requires n <= |events|
    ensures b <= n
  {
    if n == 0 || (events[n - 1].Began? && events[n - 1].id == id) then n else BegunBy(events, id, n - 1)
  }

  lemma {:induction false} VerdictIffFaultless(events: seq<Event>, id: nat, n: nat)
    requires n <= |events|
    ensures Verdict(events, id, n) < 400 <==> Faultless(events, id, n)
  {
    hide LogOf;
    if n > 0 {
      VerdictIffFaultless(events, id, n - 1);
      FaultsAreErrors(LogOf(events, id, n - 1), events[n - 1]);
      hide Fault;
      if !(events[n - 1].Began? && events[n - 1].id == id) {
        var last := Concerns(events[n - 1], id) ==> Fault(LogOf(events, id, n - 1), events[n - 1]) == 0;
        assert Faultless(events, id, n) <==> Faultless(events, id, n - 1) && last;
      }
    }
  }

  lemma FaultsAreErrors(log: Log, e: Event)
    ensures Fault(log, e) == 0 || Fault(log, e) >= 400
  {
  }

  // ----- the request's status -----

  lemma ChunkVerdict(r: Req, d: Disk, c: Chunk, now: int, log: Log, id: nat)
    requires ReqOk(r, d) && !r.finished && Follows(r, log)
    ensures var fault := Fault(log, Chunked(id, c));
      IteratePost(r, d, c, now).0.status == if fault != 0 && r.status < 400 then fault else r.status
  {
    hide SafeName, StagingPath, AppendTo;
    if !Failed(r) {
      assert |r.ignored + r.received| == |r.ignored| + |r.received|;
    }
  }

  lemma AuthVerdict(r: Req, auth: Auth, log: Log, id: nat)
    requires Follows(r, log)
    ensures var fault := Fault(log, Authorized(id, auth));
      Requests.Authorize(r, auth).status == if fault != 0 then fault else r.status
  {
  }

  lemma FaultOf(log: Log, e: Event, id: nat)
    ensures e.Chunked? ==> Fault(log, e) == Fault(log, Chunked(id, e.chunk))
    ensures e.Authorized? ==> Fault(log, e) == Fault(log, Authorized(id, e.auth))
    ensures e.Processed? ==> Fault(log, e) == if e.processed then 0 else 400
  {
  }

  /** One step's effect on the status of a request that goes on. */
  lemma StepVerdict(w: World, e: Event, id: nat, log: Log)
    requires Inv(w) && Enabled(w, e) && id in Apply(w, e).reqs && !Apply(w, e).reqs[id].finished
    requires id in w.reqs ==> Follows(w.reqs[id], log)
    ensures id !in w.reqs ==> e.Began? && e.id == id && Apply(w, e).reqs[id].status == 200
    ensures id in w.reqs ==> !w.reqs[id].finished && !(e.Began? && e.id == id)
    ensures id in w.reqs ==>
      var v, fault := w.reqs[id].status, Fault(log, e);
      Apply(w, e).reqs[id].status == if Concerns(e, id) && fault != 0 && (v < 400 || e.Authorized?) then fault else v
  {
    FaultOf(log, e, id);
    if id in w.reqs {
      RequestOwns(w, id);
      if e.Chunked? && e.id == id && !w.reqs[id].finished {
        ChunkVerdict(w.reqs[id], w.disk, e.chunk, w.sys.now, log, id);
      } else if e.Authorized? && e.id == id {
        AuthVerdict(w.reqs[id], e.auth, log, id);
      }
    }
    hide Inv, Fault, Follows, ReqOk, IteratePost, QS.ApplyEnqueue, TQ.Enqueue, QS.Apply, Commit, Seal;
  }

  /** Main result: in every run the status of a request whose body may still come is the verdict on
      its callbacks; so it is below 400 exactly while none of them was at fault. */
  lemma {:induction false} StatusIsVerdict(worlds: seq<World>, events: seq<Event>, n: nat, id: nat)
    requires Run(worlds, events) && n < |worlds| && id in worlds[n].reqs && !worlds[n].reqs[id].finished
    ensures n <= |events| && worlds[n].reqs[id].status == Verdict(events, id, n)
    ensures worlds[n].reqs[id].status < 400 <==> Faultless(events, id, n)
    decreases n
  {
    assert n > 0;
    VerdictIffFaultless(events, id, n);
    RunStep(worlds, events, n - 1);
    RunInv(worlds, events, n - 1);
    var w, e := worlds[n - 1], events[n - 1];
    hide Run, Inv, Enabled, Apply, LogOf, Fault, Faultless, Follows, Concerns;
    if id in w.reqs {
      RunFollows(worlds, events, n - 1, id);
    }
    StepVerdict(w, e, id, LogOf(events, id, n - 1));
    if id in w.reqs {
      StatusIsVerdict(worlds, events, n - 1, id);
    }
  }

  // ----- the final callback -----

  lemma UploadEnds(r: Req, d: Disk, log: Log, now: int, flushed: bool, closed: bool, renamed: bool)
    requires ReqOk(r, d) && !r.finished && Follows(r, log)
    ensures var r' := FinishUpload(r, d, flushed, closed, renamed, now).0;
      var saves := flushed && closed && renamed && r.stage.path in d.staging;
      && (r'.fileSaved <==> r.status < 400 && log.named && saves)
      && r'.status == if r.status >= 400 || !log.named || saves then r.status else 500
  {
    hide DownloadPath;
  }

  lemma SendEnds(r: Req, d: Disk, log: Log, refusal: Option<nat>, flushed: bool, closed: bool)
    requires ReqOk(r, d) && !r.finished && Follows(r, log)
    ensures var r' := SealForSend(r, refusal, flushed, closed).0;
      && (r'.fileSaved <==> r.status < 400 && log.named && refusal.None? && flushed && closed)
      && r'.status == if r.status >= 400 || !log.named then r.status
                      else if refusal.Some? then refusal.value
                      else if flushed && closed then r.status else 500
  {
  }

  /** An upload is saved exactly when no callback was at fault, a named file part had begun, and the
      file could be flushed, closed and renamed from where it was staged. */
  lemma UploadSavedIff(worlds: seq<World>, events: seq<Event>, n: nat)
    requires Run(worlds, events) && n < |events| && events[n].UploadFinished?
    ensures events[n].id in worlds[n].reqs && events[n].id in worlds[n + 1].reqs
    ensures var id, e := events[n].id, events[n];
      var saves := e.flushed && e.closed && e.renamed && worlds[n].reqs[id].stage.path in worlds[n].disk.staging;
      && (worlds[n + 1].reqs[id].fileSaved <==> Faultless(events, id, n) && LogOf(events, id, n).named && saves)
      && worlds[n + 1].reqs[id].status ==
           if Faultless(events, id, n) && LogOf(events, id, n).named && !saves then 500 else Verdict(events, id, n)
  {
    RunInv(worlds, events, n);
    RunStep(worlds, events, n);
    var w, e := worlds[n], events[n];
    RequestOwns(w, e.id);
    RunFollows(worlds, events, n, e.id);
    StatusIsVerdict(worlds, events, n, e.id);
    UploadEnds(w.reqs[e.id], w.disk, LogOf(events, e.id, n), w.sys.now, e.flushed, e.closed, e.renamed);
    hide Run, Inv, FinishUpload, ReqOk, LogOf, Faultless, Verdict, Follows;
  }

  /** A send's file is sealed for the queue exactly when no callback was at fault, a named file part
      had begun, the target was not refused, and the file could be flushed and closed. */
  lemma SendSealedIff(worlds: seq<World>, events: seq<Event>, n: nat)
    requires Run(worlds, events) && n < |events| && events[n].SendSealed?
    ensures events[n].id in worlds[n].reqs && events[n].id in worlds[n + 1].reqs
    ensures var id, e := events[n].id, events[n];
      var good := Faultless(events, id, n) && LogOf(events, id, n).named;
      && (worlds[n + 1].reqs[id].fileSaved <==> good && e.refusal.None? && e.flushed && e.closed)
      && worlds[n + 1].reqs[id].status ==
           if !good || (e.refusal.None? && e.flushed && e.closed) then Verdict(events, id, n)
           else if e.refusal.Some? then e.refusal.value else 500
  {
    RunInv(worlds, events, n);
    RunStep(worlds, events, n);
    var w, e := worlds[n], events[n];
    RequestOwns(w, e.id);
    RunFollows(worlds, events, n, e.id);
    StatusIsVerdict(worlds, events, n, e.id);
    SendEnds(w.reqs[e.id], w.disk, LogOf(events, e.id, n), e.refusal, e.flushed, e.closed);
    hide Run, Inv, SealForSend, ReqOk, LogOf, Faultless, Verdict, Follows;
  }

  // ----- the name and the time of the staged file -----

  /** The name on the first named file part since the request began. */
  function FirstName(events: seq<Event>, id: nat, n: nat): Option<string>
    requires n <= |events|
  {
    if n == 0 || (events[n - 1].Began? && events[n - 1].id == id) then None
    else NextName(FirstName(events, id, n - 1), events[n - 1], id)
  }

  function NextName(first: Option<string>, e: Event, id: nat): Option<string> {
    match e
    case Chunked(k, FileChunk(filename, _, _, _, _)) => if k == id && first.None? then filename else first
    case _ => first
  }

  /** While no error is set, the stage goes by the stored form of that name. */
  predicate NamedAfter(r: Req, first: Option<string>) {
    !Failed(r) ==> (r.inProgress <==> first.Some?) && (first.Some? ==> r.stage.name == SafeName(first.value))
  }

  lemma ChunkName(r: Req, d: Disk, c: Chunk, now: int, first: Option<string>, id: nat)
    requires ReqOk(r, d) && !r.finished && NamedAfter(r, first)
    ensures NamedAfter(IteratePost(r, d, c, now).0, NextName(first, Chunked(id, c), id))
  {
    hide SafeName, StagingPath, AppendTo;
  }

  lemma StepName(w: World, e: Event, id: nat, first: Option<string>)
    requires Inv(w) && Enabled(w, e) && id in Apply(w, e).reqs && !Apply(w, e).reqs[id].finished
    requires id in w.reqs ==> NamedAfter(w.reqs[id], first)
    ensures NamedAfter(Apply(w, e).reqs[id], if id in w.reqs then NextName(first, e, id) else None)
  {
    if id in w.reqs {
      RequestOwns(w, id);
      if e.Chunked? && e.id == id && !w.reqs[id].finished {
        ChunkName(w.reqs[id], w.disk, e.chunk, w.sys.now, first, id);
      }
    }
    hide Inv, ReqOk, SafeName, IteratePost, QS.ApplyEnqueue, TQ.Enqueue, QS.Apply, Commit, Seal;
  }

  lemma {:induction false} RunName(worlds: seq<World>, events: seq<Event>, n: nat, id: nat)
    requires Run(worlds, events) && n < |worlds| && id in worlds[n].reqs && !worlds[n].reqs[id].finished
    ensures n <= |events| && NamedAfter(worlds[n].reqs[id], FirstName(events, id, n))
    decreases n
  {
    assert n > 0;
    RunStep(worlds, events, n - 1);
    RunInv(worlds, events, n - 1);
    var w, e := worlds[n - 1], events[n - 1];
    if id in w.reqs {
      RunFollows(worlds, events, n - 1, id);
    }
    StepVerdict(w, e, id, LogOf(events, id, n - 1));
    hide Run, Inv, Enabled, Apply, NamedAfter, NextName;
    if id in w.reqs {
      RunName(worlds, events, n - 1, id);
    }
    StepName(w, e, id, FirstName(events, id, n - 1));
  }

  /** A saved upload's download is named after the second of its commit and the stored form of the name
      on its first named file part. */
  lemma DownloadIsNamed(worlds: seq<World>, events: seq<Event>, n: nat)
    requires Run(worlds, events) && n < |events| && events[n].UploadFinished?
    requires events[n].id in worlds[n + 1].reqs && worlds[n + 1].reqs[events[n].id].fileSaved
    ensures var first, name := FirstName(events, events[n].id, n), worlds[n + 1].reqs[events[n].id].filename;
      first.Some? && name == "downloads/" + IntString(worlds[n].sys.now) + "_" + SafeName(first.value)
  {
    UploadSavedIff(worlds, events, n);
    RunInv(worlds, events, n);
    RunStep(worlds, events, n);
    var w, e := worlds[n], events[n];
    RequestOwns(w, e.id);
    RunName(worlds, events, n, e.id);
    StatusIsVerdict(worlds, events, n, e.id);
    RunFollows(worlds, events, n, e.id);
    CommittedName(w.reqs[e.id], w.disk, e.flushed, e.closed, e.renamed, w.sys.now);
    hide Run, Inv, FinishUpload, ReqOk, LogOf, Faultless, Verdict, SafeName, FirstName;
  }

  lemma CommittedName(r: Req, d: Disk, flushed: bool, closed: bool, renamed: bool, now: int)
    requires ReqOk(r, d) && !r.finished
    ensures var r' := FinishUpload(r, d, flushed, closed, renamed, now).0;
      r'.fileSaved ==> !Failed(r) && r.inProgress && r'.filename == DownloadPath(now, r.stage.name)
  {
    hide DownloadPath;
  }

  /** A file chunk that is taken leaves its file, while staged, as last written at that time. */
  lemma ChunkDatesFile(worlds: seq<World>, events: seq<Event>, n: nat)
    requires Run(worlds, events) && n < |events| && events[n].Chunked? && events[n].chunk.FileChunk?
    ensures events[n].id in worlds[n].reqs && events[n].id in worlds[n + 1].reqs
    ensures var r, chunk, disk := worlds[n + 1].reqs[events[n].id], events[n].chunk, worlds[n + 1].disk;
      var opens := chunk.filename.Some? && !worlds[n].reqs[events[n].id].inProgress;
      !Failed(r) && r.stage.path in disk.staging && (chunk.data != "" || opens)
      ==> disk.staging[r.stage.path].mtime == worlds[n].sys.now
  {
    RunInv(worlds, events, n);
    RunStep(worlds, events, n);
    var w, e := worlds[n], events[n];
    RequestOwns(w, e.id);
    hide Run, Inv;
    ChunkDates(w.reqs[e.id], w.disk, e.chunk, w.sys.now);
  }

  lemma ChunkDates(r: Req, d: Disk, c: Chunk, now: int)
    requires ReqOk(r, d) && !r.finished && c.FileChunk? && "" !in d.staging
    ensures var (r', d') := IteratePost(r, d, c, now);
      !Failed(r') && r'.stage.path in d'.staging && (c.data != "" || (c.filename.Some? && !r.inProgress))
      ==> d'.staging[r'.stage.path].mtime == now
  {
    hide SafeName, StagingPath;
  }
}
