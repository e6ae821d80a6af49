/** The lists read back: parsing a rendered list by the reference grammar gives every record, whole
    and in order. */
module ListReading {
  import opened Text
  import opened Json
  import opened JsonRecords
  import opened JsonLists
  import opened ListEndpoints
  import PR = PeerRegistry
  import TQ = TransferQueue

  // ----- from objects to records -----

  predicate Named(members: seq<Member>, names: seq<string>) {
    |members| == |names| && forall i :: 0 <= i < |names| ==> members[i].name == names[i]
  }

  const PEER_NAMES: seq<string> := ["name", "ip", "port", "active", "paired", "last_seen"]

  const JOB_NAMES: seq<string> := ["job_id", "status", "target_ip", "target_port", "bytes_sent", "total_bytes",
                                   "created_at", "updated_at", "error_message"]

  predicate IsNat(v: Json) {
    v.Number? && v.n >= 0
  }

  function ReadPeer(v: Json): Option<PR.Peer> {
    if !v.Object? || !Named(v.members, PEER_NAMES) then None
    else
      var m := v.members;
      if m[0].value.String? && m[1].value.String? && IsNat(m[2].value) && m[3].value.Bool? && m[4].value.Bool?
         && m[5].value.Number?
      then Some(PR.Peer(m[0].value.s, m[1].value.s, m[2].value.n, m[3].value.b, m[4].value.b, m[5].value.n))
      else None
  }

  function ReadStatus(name: string): Option<TQ.Status> {
    if name == "queued" then Some(TQ.Queued)
    else if name == "in_progress" then Some(TQ.InProgress)
    else if name == "completed" then Some(TQ.Completed)
    else if name == "failed" then Some(TQ.Failed)
    else if name == "unused" then Some(TQ.Unused)
    else None
  }

  function ReadJob(v: Json): Option<JobView> {
    if !v.Object? || !Named(v.members, JOB_NAMES) then None
    else
      var m := v.members;
      if m[0].value.String? && m[1].value.String? && ReadStatus(m[1].value.s).Some? && m[2].value.String?
         && IsNat(m[3].value) && IsNat(m[4].value) && IsNat(m[5].value) && m[6].value.Number? && m[7].value.Number?
         && m[8].value.String?
      then Some(JobView(m[0].value.s, ReadStatus(m[1].value.s).value, m[2].value.s, m[3].value.n, m[4].value.n,
                        m[5].value.n, m[6].value.n, m[7].value.n, m[8].value.s))
      else None
  }

  lemma PeerObjectReads(p: PR.Peer)
    ensures ReadPeer(Object(PeerMembers(p))) == Some(p)
  {
  }

  lemma StatusReads(s: TQ.Status)
    ensures ReadStatus(StatusName(s)) == Some(s)
  {
  }

  lemma JobObjectReads(j: JobView)
    ensures ReadJob(Object(JobMembers(j))) == Some(j)
  {
    hide StatusName, ReadStatus;
    StatusReads(j.status);
  }

  function ReadPeers(items: seq<Json>): Option<seq<PR.Peer>> {
    if items == [] then Some([])
    else
      match (ReadPeer(items[0]), ReadPeers(items[1..]))
      case (Some(p), Some(rest)) => Some([p] + rest)
      case _ => None
  }

  function ReadJobs(items: seq<Json>): Option<seq<JobView>> {
    if items == [] then Some([])
    else
      match (ReadJob(items[0]), ReadJobs(items[1..]))
      case (Some(j), Some(rest)) => Some([j] + rest)
      case _ => None
  }

  /** The peers in a document, if it is a list of them. */
  function PeersIn(text: string): Option<seq<PR.Peer>> {
    match Parse(text)
    case Some(Array(items)) => ReadPeers(items)
    case _ => None
  }

  function JobsIn(text: string): Option<seq<JobView>> {
    match Parse(text)
    case Some(Array(items)) => ReadJobs(items)
    case _ => None
  }

  // ----- lists -----

  predicate CPeer(p: PR.Peer) {
    NulFree(p.name) && NulFree(p.ip)
  }

  predicate CJob(j: JobView) {
    NulFree(j.jobId) && NulFree(j.targetIp) && NulFree(j.errorMessage)
  }

  function PeerObjects(peers: seq<PR.Peer>): (r: seq<Json>)
    ensures |r| == |peers| && forall i :: 0 <= i < |peers| ==> r[i] == Object(PeerMembers(peers[i]))
  {
    seq(|peers|, i requires 0 <= i < |peers| => Object(PeerMembers(peers[i])))
  }

  function JobObjects(views: seq<JobView>): (r: seq<Json>)
    ensures |r| == |views| && forall i :: 0 <= i < |views| ==> r[i] == Object(JobMembers(views[i]))
  {
    seq(|views|, i requires 0 <= i < |views| => Object(JobMembers(views[i])))
  }

  lemma {:induction false} ReadPeersOfObjects(peers: seq<PR.Peer>)
    ensures ReadPeers(PeerObjects(peers)) == Some(peers)
  {
    if peers != [] {
      hide ReadPeer, PeerMembers;
      PeerObjectReads(peers[0]);
      ReadPeersOfObjects(peers[1..]);
      assert PeerObjects(peers)[1..] == PeerObjects(peers[1..]);
      assert peers == [peers[0]] + peers[1..];
    }
  }

  lemma {:induction false} ReadJobsOfObjects(views: seq<JobView>)
    ensures ReadJobs(JobObjects(views)) == Some(views)
  {
    if views != [] {
      hide ReadJob, JobMembers;
      JobObjectReads(views[0]);
      ReadJobsOfObjects(views[1..]);
      assert JobObjects(views)[1..] == JobObjects(views[1..]);
      assert views == [views[0]] + views[1..];
    }
  }

  lemma PeerPrintable(p: PR.Peer)
    requires CPeer(p)
    ensures Printable(Object(PeerMembers(p)))
  {
  }

  lemma JobNamesNulFree(s: TQ.Status)
    ensures forall i :: 0 <= i < |JOB_NAMES| ==> NulFree(JOB_NAMES[i])
    ensures NulFree(StatusName(s))
  {
  }

  lemma JobPrintable(j: JobView)
    requires CJob(j)
    ensures Printable(Object(JobMembers(j)))
  {
    JobNamesNulFree(j.status);
    hide NulFree, StatusName;
    var members := JobMembers(j);
    forall i | 0 <= i < |members| ensures PrintableMember(members[i]) {
      assert members[i].name == JOB_NAMES[i];
    }
  }

  /** Main result for peers: whatever the names, addresses, ports, flags and times, the rendered
      registry reads back as exactly the registry, in order. */
  lemma PeerListInvertible(peers: seq<PR.Peer>)
    requires forall i :: 0 <= i < |peers| ==> CPeer(peers[i])
    ensures PeersIn(List(PeerTexts(peers)) + "]") == Some(peers)
  {
    hide RenderPeer, PeerMembers, List, ReadPeers, Print, Parse, CPeer, Printable;
    var objects := PeerObjects(peers);
    forall i | 0 <= i < |peers| ensures Print(objects[i]) == PeerTexts(peers)[i] && Printable(objects[i]) {
      RenderPeerIsPrint(peers[i]);
      PeerPrintable(peers[i]);
    }
    assert ItemTexts(objects) == PeerTexts(peers);
    PrintArray(objects, PeerTexts(peers));
    PrintableArray(objects);
    ParsePrint(Array(objects));
    ReadPeersOfObjects(peers);
  }

  /** Main result for jobs: the rendered table reads back as exactly the slots in use, in order. */
  lemma JobListInvertible(jobs: seq<TQ.Job>)
    requires forall i :: 0 <= i < |InUse(jobs)| ==> CJob(InUse(jobs)[i])
    ensures JobsIn(List(JobViewTexts(InUse(jobs))) + "]") == Some(InUse(jobs))
  {
    hide RenderJob, JobMembers, List, ReadJobs, Print, Parse, CJob, Printable, InUse;
    var views := InUse(jobs);
    var objects := JobObjects(views);
    forall i | 0 <= i < |views| ensures Print(objects[i]) == JobViewTexts(views)[i] && Printable(objects[i]) {
      RenderJobIsPrint(views[i]);
      JobPrintable(views[i]);
    }
    assert ItemTexts(objects) == JobViewTexts(views);
    PrintArray(objects, JobViewTexts(views));
    PrintableArray(objects);
    ParsePrint(Array(objects));
    ReadJobsOfObjects(views);
  }

  lemma PrintableArray(items: seq<Json>)
    requires forall i :: 0 <= i < |items| ==> Printable(items[i])
    ensures Printable(Array(items))
  {
  }

  /** The answer to a status query reads back as the job it was asked for. */
  lemma StatusReplyInvertible(job: TQ.Job)
    requires CJob(ViewOf(job))
    ensures Parse(RenderJob(ViewOf(job))) == Some(Object(JobMembers(ViewOf(job))))
    ensures ReadJob(Object(JobMembers(ViewOf(job)))) == Some(ViewOf(job))
  {
    hide RenderJob, Print, Parse, CJob, Printable, JobMembers, ReadJob;
    RenderJobIsPrint(ViewOf(job));
    JobPrintable(ViewOf(job));
    ParsePrint(Object(JobMembers(ViewOf(job))));
    JobObjectReads(ViewOf(job));
  }

  // ----- the job list against the slots -----

  /** The slots in use, in order. */
  function SlotsInUse(jobs: seq<TQ.Job>): (r: seq<nat>)
    ensures forall k :: 0 <= k < |r| ==> r[k] < |jobs| && jobs[r[k]].inUse
    ensures forall i :: 0 <= i < |jobs| && jobs[i].inUse ==> i in r
    ensures forall k, l :: 0 <= k < l < |r| ==> r[k] < r[l]
  {
    if jobs == [] then []
    else
      var last := |jobs| - 1;
      var front := SlotsInUse(jobs[..last]);
      assert forall i :: 0 <= i < last ==> jobs[..last][i] == jobs[i];
      if jobs[last].inUse then front + [last] else front
  }

  /** A record as read shows every field of the job. */
  predicate ShowsJob(v: JobView, j: TQ.Job) {
    && v.jobId == j.jobId && v.status == j.status && v.targetIp == j.targetIp && v.targetPort == j.targetPort
    && v.bytesSent == j.bytesSent && v.totalBytes == j.totalBytes
    && v.createdAt == j.createdAt && v.updatedAt == j.updatedAt && v.errorMessage == j.errorMessage
  }

  lemma {:induction false} InUseShowsSlots(jobs: seq<TQ.Job>)
    ensures |InUse(jobs)| == |SlotsInUse(jobs)|
    ensures forall k :: 0 <= k < |InUse(jobs)| ==> ShowsJob(InUse(jobs)[k], jobs[SlotsInUse(jobs)[k]])
  {
    if jobs != [] {
      var last := |jobs| - 1;
      InUseShowsSlots(jobs[..last]);
      var front := SlotsInUse(jobs[..last]);
      InUseLast(jobs);
      hide ShowsJob, InUse, SlotsInUse;
      ViewShows(jobs[last]);
      forall k | 0 <= k < |front| ensures ShowsJob(InUse(jobs[..last])[k], jobs[front[k]]) {
        assert jobs[..last][front[k]] == jobs[front[k]];
      }
    }
  }

  lemma ViewShows(j: TQ.Job)
    ensures ShowsJob(ViewOf(j), j)
  {
  }

  lemma InUseLast(jobs: seq<TQ.Job>)
    requires jobs != []
    ensures var last, inUse := |jobs| - 1, jobs[|jobs| - 1].inUse;
      && InUse(jobs) == (if inUse then InUse(jobs[..last]) + [ViewOf(jobs[last])] else InUse(jobs[..last]))
      && SlotsInUse(jobs) == (if inUse then SlotsInUse(jobs[..last]) + [last] else SlotsInUse(jobs[..last]))
  {
  }

  /** So what a client reads is one record for each slot in use, in slot order, with the slot's id,
      status, target, byte counts, times and error. */
  lemma JobListShowsSlots(jobs: seq<TQ.Job>)
    requires forall i :: 0 <= i < |jobs| && jobs[i].inUse ==>
      NulFree(jobs[i].jobId) && NulFree(jobs[i].targetIp) && NulFree(jobs[i].errorMessage)
    ensures var read, slots := JobsIn(List(JobViewTexts(InUse(jobs))) + "]"), SlotsInUse(jobs);
      && read.Some? && |read.value| == |slots|
      && forall k :: 0 <= k < |slots| ==> ShowsJob(read.value[k], jobs[slots[k]])
  {
    InUseShowsSlots(jobs);
    var views, slots := InUse(jobs), SlotsInUse(jobs);
    hide InUse, JobViewTexts, List, JobsIn, SlotsInUse;
    forall k | 0 <= k < |views| ensures CJob(views[k]) {
      assert ShowsJob(views[k], jobs[slots[k]]);
    }
    JobListInvertible(jobs);
  }
}
