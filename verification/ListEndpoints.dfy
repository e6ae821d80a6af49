/** The list endpoints as code, and what a client that knows only the JSON grammar reads back. */
module ListEndpoints {
  import opened Text
  import opened Json
  import opened JsonRecords
  import opened JsonLists
  import JsonBuffer
  import PR = PeerRegistry
  import TQ = TransferQueue

  // ----- the renderers -----

  function PeerTexts(peers: seq<PR.Peer>): (r: seq<string>)
    ensures |r| == |peers| && forall i :: 0 <= i < |peers| ==> r[i] == RenderPeer(peers[i])
  {
    seq(|peers|, i requires 0 <= i < |peers| => RenderPeer(peers[i]))
  }

  /** The jobs of the slots in use, in slot order. */
  function InUse(jobs: seq<TQ.Job>): seq<JobView> {
    if jobs == [] then []
    else
      var front, last := InUse(jobs[..|jobs| - 1]), jobs[|jobs| - 1];
      if last.inUse then front + [ViewOf(last)] else front
  }

  function JobViewTexts(views: seq<JobView>): (r: seq<string>)
    ensures |r| == |views| && forall i :: 0 <= i < |views| ==> r[i] == RenderJob(views[i])
  {
    seq(|views|, i requires 0 <= i < |views| => RenderJob(views[i]))
  }

  lemma PeerTextsSnoc(peers: seq<PR.Peer>, i: nat)
    requires i < |peers|
    ensures List(PeerTexts(peers[..i + 1])) ==
      (if i == 0 then List(PeerTexts(peers[..i])) else List(PeerTexts(peers[..i])) + ",") + RenderPeer(peers[i])
  {
    hide RenderPeer, List;
    assert PeerTexts(peers[..i + 1]) == PeerTexts(peers[..i]) + [RenderPeer(peers[i])];
    ListSnoc(PeerTexts(peers[..i]), RenderPeer(peers[i]));
  }

  lemma PeerPieces(done: string, p: PR.Peer)
    ensures done + "{\"name\":\"" + Escape(p.name) + "\",\"ip\":\"" + Escape(p.ip)
      + ("\",\"port\":" + NatString(p.port) + ",\"active\":" + BoolText(p.active) + ",\"paired\":" + BoolText(p.paired)
         + ",\"last_seen\":" + IntString(p.lastSeen) + "}") == done + RenderPeer(p)
  {
    hide Escape, NatString, IntString, BoolText;
    var n, i := Escape(p.name), Escape(p.ip);
    var tail := "\",\"port\":" + NatString(p.port) + ",\"active\":" + BoolText(p.active) + ",\"paired\":"
      + BoolText(p.paired) + ",\"last_seen\":" + IntString(p.lastSeen) + "}";
    Regroup(done, "{\"name\":\"" + n + "\",\"ip\":\"" + i, tail);
    Regroup(done, "{\"name\":\"" + n + "\",\"ip\":\"", i);
    Regroup(done, "{\"name\":\"" + n, "\",\"ip\":\"");
    Regroup(done, "{\"name\":\"", n);
  }

  method AppendPeer(buffer: JsonBuffer.Buffer, p: PR.Peer)
    requires buffer.Valid() && buffer.data != null
    modifies buffer, buffer.data
    ensures buffer.Valid() && buffer.Contents() == old(buffer.Contents()) + RenderPeer(p)
    ensures buffer.data != null && (buffer.data == old(buffer.data) || fresh(buffer.data))
  {
    PeerPieces(buffer.Contents(), p);
    hide Escape, NatString, IntString, BoolText, RenderPeer, buffer.Valid, buffer.Contents;
    buffer.Append("{\"name\":\"");
    buffer.AppendEscaped(p.name);
    buffer.Append("\",\"ip\":\"");
    buffer.AppendEscaped(p.ip);
    buffer.Appendf("\",\"port\":" + NatString(p.port) + ",\"active\":" + BoolText(p.active) + ",\"paired\":"
                   + BoolText(p.paired) + ",\"last_seen\":" + IntString(p.lastSeen) + "}");
  }

  /** One turn of the peer loop: a comma unless it is the first, then the peer. */
  method AppendNextPeer(buffer: JsonBuffer.Buffer, peers: seq<PR.Peer>, index: nat)
    requires buffer.Valid() && buffer.data != null && index < |peers|
    requires buffer.Contents() == List(PeerTexts(peers[..index]))
    modifies buffer, buffer.data
    ensures buffer.Valid() && buffer.Contents() == List(PeerTexts(peers[..index + 1]))
    ensures buffer.data != null && (buffer.data == old(buffer.data) || fresh(buffer.data))
  {
    PeerTextsSnoc(peers, index);
    hide List, RenderPeer, PeerTexts, buffer.Contents, buffer.Valid;
    if index > 0 {
      buffer.Append(",");
    }
    AppendPeer(buffer, peers[index]);
  }

  method RenderPeers(peers: seq<PR.Peer>) returns (payload: JsonBuffer.Buffer)
    ensures fresh(payload) && payload.Valid() && payload.Contents() == List(PeerTexts(peers)) + "]"
  {
    hide List, PeerTexts, payload.Contents, payload.Valid;
    StartOfList(peers);
    payload := new JsonBuffer.Buffer();
    payload.Append("[");
    var index := 0;
    while index < |peers|
      invariant 0 <= index <= |peers|
      invariant fresh(payload) && payload.Valid() && payload.data != null && fresh(payload.data)
      invariant payload.Contents() == List(PeerTexts(peers[..index]))
    {
      AppendNextPeer(payload, peers, index);
      index := index + 1;
    }
    assert peers[..index] == peers;
    payload.Append("]");
  }

  lemma StartOfList(peers: seq<PR.Peer>)
    ensures List(PeerTexts(peers[..0])) == "" + "["
  {
  }

  method PeerRegistrySnapshotJson(registry: PR.Registry) returns (payload: JsonBuffer.Buffer)
    requires registry.Valid()
    ensures fresh(payload) && payload.Valid() && payload.Contents() == List(PeerTexts(registry.Peers())) + "]"
  {
    hide List, PeerTexts, payload.Contents, payload.Valid;
    payload := RenderPeers(registry.registry[..registry.registryCount]);
  }

  function JobHead(j: JobView): string {
    "{\"job_id\":\"" + Escape(j.jobId) + "\",\"status\":\"" + Escape(StatusName(j.status))
    + "\",\"target_ip\":\"" + Escape(j.targetIp)
  }

  function NumbersOf(j: JobView): string {
    JobNumbers(NatString(j.targetPort), NatString(j.bytesSent), NatString(j.totalBytes),
               IntString(j.createdAt), IntString(j.updatedAt))
  }

  lemma HeadPieces(done: string, j: JobView)
    ensures done + "{\"job_id\":\"" + Escape(j.jobId) + "\",\"status\":\"" + Escape(StatusName(j.status))
      + "\",\"target_ip\":\"" + Escape(j.targetIp) == done + JobHead(j)
  {
    hide Escape, StatusName;
    var a := "{\"job_id\":\"" + Escape(j.jobId) + "\",\"status\":\"";
    Regroup(done, a + Escape(StatusName(j.status)) + "\",\"target_ip\":\"", Escape(j.targetIp));
    Regroup(done, a + Escape(StatusName(j.status)), "\",\"target_ip\":\"");
    Regroup(done, a, Escape(StatusName(j.status)));
    Regroup(done, "{\"job_id\":\"" + Escape(j.jobId), "\",\"status\":\"");
    Regroup(done, "{\"job_id\":\"", Escape(j.jobId));
  }

  lemma JobPieces(done: string, j: JobView)
    ensures done + JobHead(j) + NumbersOf(j) + Escape(j.errorMessage) + "\"}" == done + RenderJob(j)
  {
    hide Escape, NatString, IntString, JobNumbers, StatusName;
    Regroup(done, JobHead(j) + NumbersOf(j) + Escape(j.errorMessage), "\"}");
    Regroup(done, JobHead(j) + NumbersOf(j), Escape(j.errorMessage));
    Regroup(done, JobHead(j), NumbersOf(j));
  }

  method AppendJobHead(buffer: JsonBuffer.Buffer, j: JobView)
    requires buffer.Valid()
    modifies buffer, buffer.data
    ensures buffer.Valid() && buffer.Contents() == old(buffer.Contents()) + JobHead(j)
    ensures buffer.data != null && (buffer.data == old(buffer.data) || fresh(buffer.data))
  {
    HeadPieces(buffer.Contents(), j);
    hide Escape, JobHead, StatusName, buffer.Valid, buffer.Contents;
    buffer.Append("{\"job_id\":\"");
    buffer.AppendEscaped(j.jobId);
    buffer.Append("\",\"status\":\"");
    buffer.AppendEscaped(StatusName(j.status));
    buffer.Append("\",\"target_ip\":\"");
    buffer.AppendEscaped(j.targetIp);
  }

  method AppendJobJson(buffer: JsonBuffer.Buffer, job: TQ.Job)
    requires buffer.Valid()
    modifies buffer, buffer.data
    ensures buffer.Valid() && buffer.Contents() == old(buffer.Contents()) + RenderJob(ViewOf(job))
    ensures buffer.data != null && (buffer.data == old(buffer.data) || fresh(buffer.data))
  {
    JobPieces(buffer.Contents(), ViewOf(job));
    hide Escape, RenderJob, JobHead, NumbersOf, buffer.Valid, buffer.Contents;
    AppendJobHead(buffer, ViewOf(job));
    buffer.Appendf(NumbersOf(ViewOf(job)));
    buffer.AppendEscaped(job.errorMessage);
    buffer.Append("\"}");
  }

  lemma InUseSnoc(jobs: seq<TQ.Job>, i: nat)
    requires i < |jobs|
    ensures InUse(jobs[..i + 1]) == if jobs[i].inUse then InUse(jobs[..i]) + [ViewOf(jobs[i])] else InUse(jobs[..i])
  {
    assert jobs[..i + 1][..i] == jobs[..i];
  }

  lemma ViewTextsSnoc(views: seq<JobView>, v: JobView)
    ensures List(JobViewTexts(views + [v])) ==
      (if views == [] then List(JobViewTexts(views)) else List(JobViewTexts(views)) + ",") + RenderJob(v)
  {
    hide RenderJob, List;
    assert JobViewTexts(views + [v]) == JobViewTexts(views) + [RenderJob(v)];
    ListSnoc(JobViewTexts(views), RenderJob(v));
  }

  lemma JobEndsWithBrace(v: JobView)
    ensures RenderJob(v) != "" && RenderJob(v)[|RenderJob(v)| - 1] == '}'
  {
    hide Escape, NatString, IntString, JobNumbers, StatusName;
  }

  /** The renderer's comma rule: the last byte written is an open bracket exactly while no job
      has been printed, whatever the jobs say. */
  lemma CommaRule(views: seq<JobView>)
    ensures var text := List(JobViewTexts(views)); text != "" && (text[|text| - 1] != '[' <==> views != [])
  {
    hide RenderJob, List;
    forall i | 0 <= i < |views| ensures var x := JobViewTexts(views)[i]; x != "" && x[|x| - 1] == '}' {
      JobEndsWithBrace(views[i]);
    }
    LastByte(JobViewTexts(views));
  }

  method AppendNextJob(buffer: JsonBuffer.Buffer, jobs: seq<TQ.Job>, index: nat)
    requires buffer.Valid() && buffer.data != null && index < |jobs| && jobs[index].inUse
    requires buffer.Contents() == List(JobViewTexts(InUse(jobs[..index])))
    modifies buffer, buffer.data
    ensures buffer.Valid() && buffer.Contents() == List(JobViewTexts(InUse(jobs[..index + 1])))
    ensures buffer.data != null && (buffer.data == old(buffer.data) || fresh(buffer.data))
  {
    hide List, RenderJob, JobViewTexts, InUse, buffer.Contents, buffer.Valid;
    CommaRule(InUse(jobs[..index]));
    InUseSnoc(jobs, index);
    ViewTextsSnoc(InUse(jobs[..index]), ViewOf(jobs[index]));
    var last := buffer.LastByte();
    if last != '[' {
      buffer.Append(",");
    }
    AppendJobJson(buffer, jobs[index]);
  }

  lemma StartOfJobs(jobs: seq<TQ.Job>)
    ensures List(JobViewTexts(InUse(jobs[..0]))) == "" + "["
  {
  }

  method RenderJobs(jobs: seq<TQ.Job>) returns (payload: JsonBuffer.Buffer)
    ensures fresh(payload) && payload.Valid() && payload.Contents() == List(JobViewTexts(InUse(jobs))) + "]"
  {
    hide List, JobViewTexts, InUse, payload.Contents, payload.Valid;
    StartOfJobs(jobs);
    payload := new JsonBuffer.Buffer();
    payload.Append("[");
    var index := 0;
    while index < |jobs|
      invariant 0 <= index <= |jobs|
      invariant fresh(payload) && payload.Valid() && payload.data != null && fresh(payload.data)
      invariant payload.Contents() == List(JobViewTexts(InUse(jobs[..index])))
    {
      InUseSnoc(jobs, index);
      if jobs[index].inUse {
        AppendNextJob(payload, jobs, index);
      }
      index := index + 1;
    }
    assert jobs[..index] == jobs;
    payload.Append("]");
  }

  method TransferStatusListJson(queue: TQ.TransferQueue) returns (payload: JsonBuffer.Buffer)
    ensures fresh(payload) && payload.Valid()
    ensures payload.Contents() == List(JobViewTexts(InUse(queue.jobs[..]))) + "]"
  {
    hide List, JobViewTexts, InUse, payload.Contents, payload.Valid;
    payload := RenderJobs(queue.jobs[..]);
  }

  /** A status query: the slot's text, or nothing for an unknown id. */
  method TransferStatusGet(queue: TQ.TransferQueue, jobId: string) returns (payload: Option<JsonBuffer.Buffer>)
    requires queue.Valid()
    ensures var found := TQ.Lookup(queue.jobs[..], jobId);
      match payload
      case None => found.None?
      case Some(text) => found.Some? && fresh(text) && text.Valid() && text.Contents() == RenderJob(ViewOf(found.value))
  {
    hide RenderJob;
    var found := queue.StatusGet(jobId);
    if found.None? {
      return None;
    }
    var buffer := new JsonBuffer.Buffer();
    AppendJobJson(buffer, found.value);
    assert "" + RenderJob(ViewOf(found.value)) == RenderJob(ViewOf(found.value));
    return Some(buffer);
  }
}
