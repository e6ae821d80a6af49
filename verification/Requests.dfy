/** One HTTP request with a body, as src/server.c drives it: an authorization check on the first
    body callback, a form callback per chunk, a final callback that commits or enqueues, and the
    completion notice. */
module Requests {
  import opened Text
  import opened Storage
  import FormFields

  const MAX_FILE_SIZE: nat := 104857600

  /** The two endpoints that keep a file, and the other form endpoints, which share the callback. */
  datatype Kind = Upload | Send | OtherForm

  /** The outcome of the rate limit and the credential checks, consulted once per request. */
  datatype Auth = Granted | Refused | RateLimited

  /** One call of the form callback. For a file part: its name if the part carries one, the bytes,
      and what the token generator, fopen and fwrite do if they are reached. For any other part:
      its key, the bytes and their offset in the value. */
  datatype Chunk =
    | FileChunk(filename: Option<string>, data: string, token: Option<string>, created: bool, written: nat)
    | TextChunk(key: string, text: string, off: nat)

  /** `received` and `ignored` are history: the file bytes written and those passed over. So are
      `finished` (the final callback ran) and `handedOff` (a job took the file). */
  datatype Req = Req(kind: Kind, stage: Stage, filename: string, inProgress: bool, fileSaved: bool, status: nat,
                     authChecked: bool, authorized: bool,
                     received: string, ignored: string, finished: bool, handedOff: bool)

  function NewReq(kind: Kind): Req {
    Req(kind, NO_STAGE, "", false, false, 200, false, false, "", "", false, false)
  }

  predicate Failed(r: Req) {
    r.status >= 400
  }

  function UploadAuth(allowed: bool, uiSession: bool, pairToken: bool): Auth {
    if !allowed then RateLimited else if uiSession || pairToken then Granted else Refused
  }

  function UiAuth(allowed: bool, uiSession: bool): Auth {
    if !allowed then RateLimited else if uiSession then Granted else Refused
  }

  function Authorize(r: Req, auth: Auth): Req {
    if r.authChecked then r
    else
      match auth
      case RateLimited => r.(authChecked := true, status := 429)
      case Refused => r.(authChecked := true, status := 401, authorized := false)
      case Granted => r.(authChecked := true, authorized := true)
  }

  function IteratePost(r: Req, d: Disk, c: Chunk, now: int): (Req, Disk) {
    if Failed(r) || c.TextChunk? then (r, d)
    else if c.filename.Some? && !r.stage.open && !r.stage.sealed then
      var (stage, d', ok) := Open(d, c.filename.value, c.token, c.created, now);
      if !ok then (r.(stage := stage, status := 500), d')
      else Receive(r.(stage := stage, inProgress := true), d', c.data, c.written, now)
    else Receive(r, d, c.data, c.written, now)
  }

  function Receive(r: Req, d: Disk, data: string, written: nat, now: int): (Req, Disk) {
    if data == "" then (r, d)
    else if !r.stage.open && !r.stage.sealed then (r.(ignored := r.ignored + data), d)
    else
      var (stage, d', ok) := Write(r.stage, d, data, MAX_FILE_SIZE, written, now);
      if ok then (r.(stage := stage, received := r.received + data), d')
      else (r.(stage := stage, status := WriteError(r.stage, data)), d')
  }

  /** Too large is the one write error with a status of its own. */
  function WriteError(s: Stage, data: string): nat {
    if s.open && s.bytes + |data| > MAX_FILE_SIZE then 413 else 500
  }

  /** After a body callback, a form error is reported unless something worse already was. */
  function PostProcessed(r: Req, processed: bool): Req {
    if !processed && !Failed(r) then r.(status := 400) else r
  }

  /** The final callback of an upload. */
  function FinishUpload(r: Req, d: Disk, flushed: bool, closed: bool, renamed: bool, now: int): (Req, Disk) {
    var r := r.(finished := true);
    if Failed(r) || !r.inProgress then (r, d)
    else
      var (stage, d', ok) := Commit(r.stage, d, flushed, closed, renamed, now);
      if ok then (r.(stage := stage, fileSaved := true, filename := DownloadPath(now, stage.name)), d')
      else (r.(stage := stage, status := 500), d')
  }

  /** The final callback of a send, up to the enqueue: the target is checked (`refusal` is the error
      status if it is no active, paired peer with a token) and the file is sealed. */
  function SealForSend(r: Req, refusal: Option<nat>, flushed: bool, closed: bool): (Req, bool) {
    var r := r.(finished := true);
    if Failed(r) || !r.inProgress then (r, false)
    else if refusal.Some? then (r.(status := refusal.value), false)
    else
      var (stage, ok) := Seal(r.stage, flushed, closed);
      if ok then (r.(stage := stage, fileSaved := true, filename := stage.path), true)
      else (r.(stage := stage, status := 500), false)
  }

  /** The rest of it: the queue takes the file, or the stage is aborted. */
  function SendEnqueued(r: Req, d: Disk, accepted: bool): (Req, Disk) {
    if accepted then (r.(handedOff := true), d)
    else
      var (stage, d') := Abort(r.stage, d);
      (r.(stage := stage, fileSaved := false), d')
  }

  /** The completion notice. */
  function Complete(r: Req, d: Disk): Disk {
    if r.fileSaved then d else Abort(r.stage, d).1
  }

  // ----- the code -----

  class Connection {
    const kind: Kind
    const uploadStage: UploadStage
    const form: FormFields.Form
    var filename: string
    var uploadInProgress: bool
    var fileSaved: bool
    var responseStatus: nat
    var authChecked: bool
    var requestAuthorized: bool
    ghost var received: string
    ghost var ignored: string
    ghost var finished: bool
    ghost var handedOff: bool

    ghost function State(): Req
      reads this, uploadStage
    {
      Req(kind, uploadStage.State(), filename, uploadInProgress, fileSaved, responseStatus, authChecked,
          requestAuthorized, received, ignored, finished, handedOff)
    }

    ghost function DiskState(): Disk
      reads uploadStage.store
    {
      uploadStage.DiskState()
    }

    constructor (kind: Kind, stage: UploadStage, form: FormFields.Form)
      requires stage.State() == NO_STAGE
      ensures State() == NewReq(kind) && uploadStage == stage && this.form == form
    {
      this.kind, uploadStage, this.form := kind, stage, form;
      filename, uploadInProgress, fileSaved, responseStatus := "", false, false, 200;
      authChecked, requestAuthorized := false, false;
      received, ignored, finished, handedOff := "", "", false, false;
    }

    /** Both authorization checks have this shape; `auth` is what the limiter and tables say. */
    method AuthorizeRequest(auth: Auth) returns (ok: bool)
      modifies this
      ensures State() == Authorize(old(State()), auth) && ok == requestAuthorized
    {
      if !authChecked {
        authChecked := true;
        match auth
        case RateLimited =>
          responseStatus := 429;
        case Granted =>
          requestAuthorized := true;
        case Refused =>
          responseStatus := 401;
          requestAuthorized := false;
      }
      return requestAuthorized;
    }

    method IteratePostData(c: Chunk, now: int)
      requires form.Valid()
      modifies this, uploadStage, uploadStage.store, form.Buffers()
      ensures (State(), DiskState()) == IteratePost(old(State()), old(DiskState()), c, now)
      ensures forall f ::
        if !old(Failed(State())) && c.TextChunk? && FormFields.FieldOf(c.key) == Some(f) then
          form.Buffer(f)[..] == FormFields.CopyChunk(old(form.Buffer(f)[..]), c.text, c.off)
        else form.Buffer(f)[..] == old(form.Buffer(f)[..])
    {
      hide FormFields.FieldOf, FormFields.CopyChunk;
      if responseStatus >= 400 {
        return;
      }
      if c.FileChunk? {
        hide IteratePost;
        IterateFilePart(c, now);
      } else {
        form.CopyField(c.key, c.text, c.off);
      }
    }

    method IterateFilePart(c: Chunk, now: int)
      requires c.FileChunk? && responseStatus < 400
      modifies this, uploadStage, uploadStage.store
      ensures (State(), DiskState()) == IteratePost(old(State()), old(DiskState()), c, now)
    {
      if c.filename.Some? && !uploadStage.open && !uploadStage.sealed {
        var ok := uploadStage.OpenFile(c.filename.value, c.token, c.created, now);
        if !ok {
          responseStatus := 500;
          return;
        }
        uploadInProgress := true;
      }
      if (uploadStage.open || uploadStage.sealed) && |c.data| > 0 {
        ghost var before := uploadStage.State();
        var tooLarge := uploadStage.open && uploadStage.bytes + |c.data| > MAX_FILE_SIZE;
        var ok := uploadStage.WriteChunk(c.data, MAX_FILE_SIZE, c.written, now);
        if !ok {
          responseStatus := if tooLarge then 413 else 500;
          return;
        }
        received := received + c.data;
      } else if |c.data| > 0 {
        ignored := ignored + c.data;
      }
    }

    method AnswerUpload(flushed: bool, closed: bool, renamed: bool, now: int) returns (answer: nat)
      modifies this, uploadStage, uploadStage.store
      ensures (State(), DiskState()) == FinishUpload(old(State()), old(DiskState()), flushed, closed, renamed, now)
      ensures answer == if Failed(State()) then responseStatus else if uploadInProgress then 200 else 400
    {
      finished := true;
      if responseStatus >= 400 {
        return responseStatus;
      }
      if !uploadInProgress {
        return 400;
      }
      var ok := uploadStage.CommitFile(flushed, closed, renamed, now);
      if !ok {
        responseStatus := 500;
        return responseStatus;
      }
      filename := DownloadPath(now, uploadStage.name);
      fileSaved := true;
      return 200;
    }

    method SealUploadedStage(refusal: Option<nat>, flushed: bool, closed: bool) returns (ready: bool)
      modifies this, uploadStage
      ensures (State(), ready) == SealForSend(old(State()), refusal, flushed, closed)
    {
      finished := true;
      if responseStatus >= 400 {
        return false;
      }
      if !uploadInProgress {
        return false;
      }
      if refusal.Some? {
        responseStatus := refusal.value;
        return false;
      }
      var ok := uploadStage.SealFile(flushed, closed);
      if !ok {
        responseStatus := 500;
        return false;
      }
      filename := uploadStage.path;
      fileSaved := true;
      return true;
    }

    method AfterEnqueue(accepted: bool)
      modifies this, uploadStage, uploadStage.store
      ensures (State(), DiskState()) == SendEnqueued(old(State()), old(DiskState()), accepted)
    {
      if accepted {
        handedOff := true;
      } else {
        fileSaved := false;
        uploadStage.AbortFile();
      }
    }

    method RequestCompleted()
      modifies uploadStage, uploadStage.store
      ensures DiskState() == Complete(old(State()), old(DiskState()))
    {
      if !fileSaved {
        uploadStage.AbortFile();
      }
    }
  }
}
