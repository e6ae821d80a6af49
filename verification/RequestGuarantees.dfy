/** What every callback keeps true of a request and of its own staging file. */
module RequestGuarantees {
  import opened Text
  import opened Files
  import opened Storage
  import opened Requests

  /** The request's staged file, if it is still there, holds exactly these bytes. */
  predicate FileHolds(r: Req, d: Disk) {
    r.stage.path in d.staging ==> d.staging[r.stage.path].content == r.received
  }

  /** While the body may still come: a file is open exactly once a file part has begun. */
  predicate ReceivingOk(r: Req, d: Disk) {
    && (r.inProgress <==> r.stage.open) && !r.stage.sealed && !r.fileSaved
    && |r.received| == r.stage.bytes
    && (if r.stage.open then r.stage.path != "" && FileHolds(r, d) else r.stage.path == "" && r.received == "")
  }

  /** After the final callback: the file was committed, is on its way to the queue, was handed
      over, or the request holds no file. */
  predicate FinishedOk(r: Req, d: Disk) {
    if r.fileSaved then
      && r.inProgress && r.kind != OtherForm
      && if r.kind == Upload then r.stage.path == "" && !r.handedOff
         else r.stage.path != "" && r.stage.sealed && r.filename == r.stage.path && (!r.handedOff ==> FileHolds(r, d))
    else r.stage.path == ""
  }

  predicate ReqOk(r: Req, d: Disk) {
    && r.stage.bytes <= MAX_FILE_SIZE && |r.received| <= MAX_FILE_SIZE
    && (r.inProgress && r.kind != OtherForm ==> r.authorized)
    && (r.authorized ==> r.authChecked)
    && (r.handedOff ==> r.fileSaved) && (r.fileSaved ==> r.finished && !Failed(r))
    && (!Failed(r) ==> if r.finished then FinishedOk(r, d) else ReceivingOk(r, d))
  }

  lemma NewReqOk(kind: Kind, d: Disk)
    ensures ReqOk(NewReq(kind), d)
  {
  }

  /** Other threads may delete a request's file but not change it, until it is handed over. */
  lemma ReqOkFrame(r: Req, d: Disk, d': Disk)
    requires ReqOk(r, d)
    requires !r.handedOff && r.stage.path != "" && r.stage.path in d'.staging ==>
      r.stage.path in d.staging && d'.staging[r.stage.path] == d.staging[r.stage.path]
    ensures ReqOk(r, d')
  {
  }

  lemma AuthorizeOk(r: Req, d: Disk, auth: Auth)
    requires ReqOk(r, d) && !r.finished
    ensures ReqOk(Authorize(r, auth), d)
  {
  }

  /** Every other file is as it was. */
  ghost predicate OthersKept(d: Disk, d': Disk, path: string) {
    forall p :: p != path ==>
      (p in d'.staging <==> p in d.staging) && (p in d.staging ==> d'.staging[p] == d.staging[p])
  }

  function OpenedPath(c: Chunk, now: int): string {
    if c.FileChunk? && c.filename.Some? && c.token.Some? then
      StagingPath(now, c.token.value, SafeName(c.filename.value))
    else ""
  }

  lemma AppendKeeps(d: Disk, path: string, data: string, now: int)
    ensures var d' := AppendTo(d, path, data, now);
      && d'.downloads == d.downloads && d'.staging.Keys == d.staging.Keys && OthersKept(d, d', path)
      && (path in d.staging ==> d'.staging[path].content == d.staging[path].content + data)
  {
  }

  lemma ReceiveOk(r: Req, d: Disk, data: string, written: nat, now: int)
    requires ReqOk(r, d) && !r.finished && !Failed(r) && (r.kind == OtherForm || r.authorized)
    ensures var (r', d') := Receive(r, d, data, written, now);
      && ReqOk(r', d') && r'.stage.path == r.stage.path && !r'.finished
      && d'.downloads == d.downloads && d'.staging.Keys == d.staging.Keys && OthersKept(d, d', r.stage.path)
      && (!Failed(r') ==> r'.ignored + r'.received == r.ignored + r.received + data)
  {
    hide SafeName, StagingPath;
    AppendKeeps(d, r.stage.path, data, now);
    if written < |data| {
      AppendKeeps(d, r.stage.path, data[..written], now);
    }
    hide AppendTo, OthersKept;
    if data == "" {
      assert r.ignored + r.received + data == r.ignored + r.received;
    } else if !r.stage.open {
      assert r.received == "";
      assert (r.ignored + data) + "" == r.ignored + "" + data;
    } else {
      assert r.ignored + (r.received + data) == r.ignored + r.received + data;
    }
  }

  lemma OpenKeeps(d: Disk, filename: string, token: Option<string>, created: bool, now: int)
    ensures var (s, d', ok) := Open(d, filename, token, created, now);
      && d'.downloads == d.downloads && !s.sealed && s.bytes == 0 && s.open == ok
      && (if ok then token.Some? && s.path == StagingPath(now, token.value, SafeName(filename)) && s.path != ""
            && d'.staging == d.staging[s.path := File("", now)]
          else s.path == "" && d' == d)
  {
  }

  /** A form callback: the request's path stays, or a fresh one is opened under it; no other file
      changes; and while no error is set, every byte was either written or passed over. */
  lemma IteratePostOk(r: Req, d: Disk, c: Chunk, now: int)
    requires ReqOk(r, d) && !r.finished && (r.kind == OtherForm || r.authorized)
    ensures var (r', d') := IteratePost(r, d, c, now);
      && ReqOk(r', d') && !r'.finished && r'.kind == r.kind && r'.handedOff == r.handedOff
      && (r'.stage.path == r.stage.path || (r.stage.path == "" && r'.stage.path == OpenedPath(c, now)))
      && d'.downloads == d.downloads && d'.staging.Keys <= d.staging.Keys + {r'.stage.path}
      && (r'.stage.path == "" ==> d'.staging == d.staging)
      && OthersKept(d, d', r'.stage.path)
      && (!Failed(r') ==> r'.ignored + r'.received == r.ignored + r.received + (if c.FileChunk? then c.data else ""))
      && (Failed(r) ==> Failed(r'))
  {
    if Failed(r) || c.TextChunk? {
      assert r.ignored + r.received + "" == r.ignored + r.received;
    } else if c.filename.Some? && !r.stage.open && !r.stage.sealed {
      OpenKeeps(d, c.filename.value, c.token, c.created, now);
      var (stage, d1, ok) := Open(d, c.filename.value, c.token, c.created, now);
      hide Open, Receive, StagingPath, SafeName;
      if ok {
        ReceiveOk(r.(stage := stage, inProgress := true), d1, c.data, c.written, now);
      }
    } else {
      hide Receive, StagingPath, SafeName;
      ReceiveOk(r, d, c.data, c.written, now);
    }
  }

  lemma PostProcessedOk(r: Req, d: Disk, processed: bool)
    requires ReqOk(r, d) && !r.finished
    ensures ReqOk(PostProcessed(r, processed), d)
  {
  }

  /** The final callback of an upload keeps a file only from an authorized request without error,
      and then exactly the bytes it received. */
  lemma FinishUploadOk(r: Req, d: Disk, flushed: bool, closed: bool, renamed: bool, now: int)
    requires ReqOk(r, d) && !r.finished && r.kind == Upload
    ensures var (r', d') := FinishUpload(r, d, flushed, closed, renamed, now);
      && ReqOk(r', d') && r'.finished && r'.kind == r.kind && !r'.handedOff
      && r'.received == r.received && r'.ignored == r.ignored
      && (if r'.fileSaved then
            && !Failed(r) && r.authorized && |r.received| <= MAX_FILE_SIZE
            && r.stage.path in d.staging && d'.staging == d.staging - {r.stage.path} && r'.stage.path == ""
            && r'.filename in d'.downloads && d'.downloads[r'.filename].content == r.received
            && (forall p :: p != r'.filename ==>
                  (p in d'.downloads <==> p in d.downloads) && (p in d.downloads ==> d'.downloads[p] == d.downloads[p]))
          else d' == d && r'.stage.path == r.stage.path)
      && (Failed(r) ==> Failed(r'))
  {
    hide DownloadPath;
  }

  lemma SealForSendOk(r: Req, d: Disk, refusal: Option<nat>, flushed: bool, closed: bool)
    requires ReqOk(r, d) && !r.finished && r.kind == Send && (refusal.Some? ==> refusal.value >= 400)
    ensures var (r', ready) := SealForSend(r, refusal, flushed, closed);
      && ReqOk(r', d) && r'.finished && r'.kind == r.kind && !r'.handedOff && r'.stage.path == r.stage.path
      && r'.received == r.received && r'.ignored == r.ignored
      && (ready <==> r'.fileSaved)
      && (ready ==> !Failed(r) && r.authorized && r'.filename == r.stage.path && FileHolds(r', d))
      && (Failed(r) ==> Failed(r'))
  {
  }

  lemma SendEnqueuedOk(r: Req, d: Disk, accepted: bool)
    requires ReqOk(r, d) && r.kind == Send && r.fileSaved && !r.handedOff
    ensures var (r', d') := SendEnqueued(r, d, accepted);
      && ReqOk(r', d') && r'.kind == r.kind && d'.downloads == d.downloads
      && r'.handedOff == accepted && r'.status == r.status
      && r'.received == r.received && r'.ignored == r.ignored
      && (if accepted then d' == d && r'.stage.path == r.stage.path
          else r'.stage.path == "" && d'.staging == d.staging - {r.stage.path})
  {
  }
}
