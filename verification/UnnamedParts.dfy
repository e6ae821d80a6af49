/** A run in which file bytes that come before the first named file part are passed over: the upload
    is committed without an error and without them. */
module UnnamedParts {
  import opened Text
  import opened Files
  import opened Storage
  import opened Requests
  import opened Staging
  import opened StagingGuarantees
  import QS = QueueSystem

  const FIRST: Chunk := FileChunk(None, "a", None, false, 0)
  const SECOND: Chunk := FileChunk(Some("f"), "b", Some("t"), true, 1)

  function Path(): string {
    StagingPath(0, "t", SafeName("f"))
  }

  function Fresh(ignored: string): Req {
    NewReq(Upload).(authChecked := true, authorized := true, ignored := ignored)
  }

  function Filled(path: string): Req {
    Fresh("a").(stage := Stage(true, SafeName("f"), path, 1, false), inProgress := true, received := "b")
  }

  function Saved(): Req {
    Fresh("a").(stage := Stage(false, SafeName("f"), "", 1, true), inProgress := true, received := "b",
                fileSaved := true, filename := DownloadPath(0, SafeName("f")), finished := true)
  }

  function Alone(d: Disk, r: Req): World {
    World(d, map[0 := r], QS.Init(0))
  }

  function Staged(path: string): Disk {
    Disk(map[path := File("b", 0)], map[])
  }

  function Committed(): Disk {
    Disk(map[], map[DownloadPath(0, SafeName("f")) := File("b", 0)])
  }

  lemma FirstChunk()
    ensures IteratePost(Fresh(""), Disk0(), FIRST, 0) == (Fresh("a"), Disk0())
  {
    assert "" + "a" == "a";
  }

  lemma SecondChunk(path: string)
    requires path == Path() && path != ""
    ensures IteratePost(Fresh("a"), Disk0(), SECOND, 0) == (Filled(path), Staged(path))
  {
    hide SafeName, StagingPath;
    var none: Directory := map[];
    assert "" + "b" == "b";
    assert none[path := File("", 0)][path := File("b", 0)] == map[path := File("b", 0)];
  }

  lemma Commits(path: string)
    requires path != ""
    ensures FinishUpload(Filled(path), Staged(path), true, true, true, 0) == (Saved(), Committed())
  {
    hide SafeName, DownloadPath;
    SafeNameNotEmpty();
    var none: Directory := map[];
    assert Staged(path).staging - {path} == none;
    var target := DownloadPath(0, SafeName("f"));
    assert none[target := File("b", 0)] == map[target := File("b", 0)];
  }

  lemma SafeNameNotEmpty()
    ensures SafeName("f") != ""
  {
  }

  lemma Begin()
    ensures var w0, w1, w2 := Init(0), Alone(Disk0(), NewReq(Upload)), Alone(Disk0(), Fresh(""));
      && Enabled(w0, Began(0, Upload)) && Apply(w0, Began(0, Upload)) == w1
      && Enabled(w1, Authorized(0, Granted)) && Apply(w1, Authorized(0, Granted)) == w2
  {
    var none: map<nat, Req> := map[];
    assert none[0 := NewReq(Upload)] == map[0 := NewReq(Upload)];
  }

  lemma Receives(path: string)
    requires path == Path() && path != ""
    ensures var w2, w3, w4 := Alone(Disk0(), Fresh("")), Alone(Disk0(), Fresh("a")), Alone(Staged(path), Filled(path));
      && Enabled(w2, Chunked(0, FIRST)) && Apply(w2, Chunked(0, FIRST)) == w3
      && Enabled(w3, Chunked(0, SECOND)) && Apply(w3, Chunked(0, SECOND)) == w4
  {
    FirstChunk();
    SecondChunk(path);
    hide SafeName, StagingPath, IteratePost;
    assert forall o :: FileOf(Alone(Disk0(), Fresh("a")), o) == "";
  }

  lemma Ends(path: string)
    requires path != ""
    ensures var w4, e := Alone(Staged(path), Filled(path)), UploadFinished(0, true, true, true);
      Enabled(w4, e) && Apply(w4, e) == Alone(Committed(), Saved())
  {
    Commits(path);
    hide SafeName, FinishUpload, DownloadPath;
  }

  lemma FourSteps(path: string) returns (worlds: seq<World>, events: seq<Event>)
    requires path == Path() && path != ""
    ensures Run(worlds, events) && EndsIn(worlds, events, Alone(Staged(path), Filled(path)), 4)
    ensures events == [Began(0, Upload), Authorized(0, Granted), Chunked(0, FIRST), Chunked(0, SECOND)]
  {
    Begin();
    Receives(path);
    hide Apply, Enabled, StepAt, Path, Alone, Fresh, Filled, Staged;
    var w0, w1, w2 := Init(0), Alone(Disk0(), NewReq(Upload)), Alone(Disk0(), Fresh(""));
    worlds, events := [w0], [];
    assert Run(worlds, events) && EndsIn(worlds, events, w0, 0);
    hide Run, EndsIn;
    Extend(worlds, events, 0, w0, Began(0, Upload));
    worlds, events := worlds + [w1], events + [Began(0, Upload)];
    Extend(worlds, events, 1, w1, Authorized(0, Granted));
    worlds, events := worlds + [w2], events + [Authorized(0, Granted)];
    Extend(worlds, events, 2, w2, Chunked(0, FIRST));
    var w3 := Apply(w2, Chunked(0, FIRST));
    worlds, events := worlds + [w3], events + [Chunked(0, FIRST)];
    Extend(worlds, events, 3, w3, Chunked(0, SECOND));
    worlds, events := worlds + [Apply(w3, Chunked(0, SECOND))], events + [Chunked(0, SECOND)];
  }

  lemma LogOfSteps(events: seq<Event>)
    requires |events| >= 4
    requires events[0] == Began(0, Upload) && events[1] == Authorized(0, Granted)
    requires events[2] == Chunked(0, FIRST) && events[3] == Chunked(0, SECOND)
    ensures LogOf(events, 0, 4) == Log(Some(Granted), true, "a", "ab")
  {
    assert LogOf(events, 0, 1) == Log(None, false, "", "");
    assert LogOf(events, 0, 2) == Log(Some(Granted), false, "", "");
    assert LogOf(events, 0, 3) == Log(Some(Granted), false, "a", "a");
  }

  /** The request was sent "ab" and its download holds "b". */
  lemma UnnamedBytesAreDropped() returns (worlds: seq<World>, events: seq<Event>)
    ensures Run(worlds, events) && |events| == 5 && events[4] == UploadFinished(0, true, true, true)
    ensures LogOf(events, 0, 4).unnamed == "a" && LogOf(events, 0, 4).bytes == "ab"
    ensures |worlds| == 6 && 0 in worlds[5].reqs && worlds[5].reqs[0].fileSaved
    ensures var path := worlds[5].reqs[0].filename;
      path in worlds[5].disk.downloads && worlds[5].disk.downloads[path].content == "b"
  {
    var path := Path();
    assert path != "" && |path| >= 8;
    Ends(path);
    hide Path, Run, Apply, Enabled, DownloadPath, SafeName;
    worlds, events := FourSteps(path);
    LogOfSteps(events + [UploadFinished(0, true, true, true)]);
    var w4 := Alone(Staged(path), Filled(path));
    Extend(worlds, events, 4, w4, UploadFinished(0, true, true, true));
    worlds, events := worlds + [Apply(w4, UploadFinished(0, true, true, true))],
                      events + [UploadFinished(0, true, true, true)];
  }
}
