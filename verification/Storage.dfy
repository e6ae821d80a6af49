/** Upload staging of src/storage.c: a file is opened under a fresh name in the staging directory,
    written chunk by chunk, sealed, and then committed to the downloads or aborted. */
module Storage {
  import opened Text
  import opened Files

  // ----- file names -----

  const SAFE_NAME_SIZE: nat := 256
  const DEFAULT_NAME: string := "upload.bin"

  predicate SafeChar(c: char) {
    'a' <= c <= 'z' || 'A' <= c <= 'Z' || '0' <= c <= '9' || c == '.' || c == '_' || c == '-'
  }

  /** One past the last occurrence of `c`, or 0. */
  function AfterLast(s: string, c: char): (i: nat)
    ensures i <= |s|
    ensures i > 0 ==> s[i - 1] == c
    ensures forall j :: i <= j < |s| ==> s[j] != c
  {
    if s == "" then 0 else if s[|s| - 1] == c then |s| else AfterLast(s[..|s| - 1], c)
  }

  /** What follows the last slash, or the last backslash if there is no slash. */
  function BaseName(filename: string): string {
    if AfterLast(filename, '/') > 0 then filename[AfterLast(filename, '/')..]
    else filename[AfterLast(filename, '\\')..]
  }

  function Clean(s: string): (r: string)
    ensures |r| == |s|
    ensures forall i :: 0 <= i < |s| ==> r[i] == if SafeChar(s[i]) then s[i] else '_'
  {
    seq(|s|, i requires 0 <= i < |s| => if SafeChar(s[i]) then s[i] else '_')
  }

  /** The name a file is stored under: the cleaned base name, cut to its buffer. */
  function SafeName(filename: string): (r: string)
    ensures 0 < |r| < SAFE_NAME_SIZE
    ensures forall i :: 0 <= i < |r| ==> SafeChar(r[i])
  {
    var base := BaseName(filename);
    var cut := if |base| < SAFE_NAME_SIZE then base else base[..SAFE_NAME_SIZE - 1];
    if cut == "" then DEFAULT_NAME else Clean(cut)
  }

  /** A safe name stays as it is, so sanitizing twice changes nothing. */
  lemma SafeNameIdempotent(filename: string)
    ensures SafeName(SafeName(filename)) == SafeName(filename)
  {
    var r := SafeName(filename);
    assert AfterLast(r, '/') == 0 && AfterLast(r, '\\') == 0;
    assert BaseName(r) == r;
    assert Clean(r) == r;
  }

  /** The characters that are kept, by code: digits, capitals, small letters, hyphen, dot, underscore. */
  predicate Portable(c: char) {
    var code := c as int;
    48 <= code <= 57 || 65 <= code <= 90 || 97 <= code <= 122 || code == 45 || code == 46 || code == 95
  }

  /** The stored form of a name without directories: its first 255 characters, with an underscore for
      each that is not portable; a name of none is replaced. */
  predicate StoredAs(name: string, stored: string) {
    if name == "" then stored == "upload.bin"
    else
      && |stored| == (if |name| < 255 then |name| else 255)
      && forall i :: 0 <= i < |stored| ==> stored[i] == if Portable(name[i]) then name[i] else '_'
  }

  lemma PortableIsSafe(c: char)
    ensures Portable(c) <==> SafeChar(c)
  {
  }

  lemma StoredForm(base: string)
    ensures var cut := if |base| < SAFE_NAME_SIZE then base else base[..255];
      StoredAs(base, if base == "" then DEFAULT_NAME else Clean(cut))
  {
    forall i | 0 <= i < |base| ensures Portable(base[i]) <==> SafeChar(base[i]) {
      PortableIsSafe(base[i]);
    }
    hide Portable, SafeChar;
  }

  /** Main result for names: directories are dropped, up to the last slash, or up to the last backslash
      when there is no slash, and the rest is stored character by character. */
  lemma NameIsStored(directory: string, name: string)
    requires directory != ""
    ensures directory[|directory| - 1] == '/' && '/' !in name ==> StoredAs(name, SafeName(directory + name))
    ensures directory[|directory| - 1] == '\\' && '/' !in directory + name && '\\' !in name ==>
      StoredAs(name, SafeName(directory + name))
    ensures '/' !in name && '\\' !in name ==> StoredAs(name, SafeName(name))
  {
    var full := directory + name;
    hide SafeChar, Clean, StoredAs;
    StoredForm(name);
    if '/' !in name {
      assert forall j :: |directory| <= j < |full| ==> full[j] == name[j - |directory|];
      assert full[|directory| - 1] == directory[|directory| - 1];
      assert full[|directory|..] == name;
      if directory[|directory| - 1] == '/' {
        assert AfterLast(full, '/') == |directory|;
      }
      if directory[|directory| - 1] == '\\' && '/' !in full && '\\' !in name {
        assert AfterLast(full, '/') == 0 && AfterLast(full, '\\') == |directory|;
      }
      if '\\' !in name {
        assert AfterLast(name, '/') == 0 && AfterLast(name, '\\') == 0;
        assert name[0..] == name;
      }
    }
  }

  /** A name of portable characters after any path keeps every one of them, and its download ends in it. */
  lemma PortableNameIsKept(directory: string, name: string, now: int)
    requires directory != "" && directory[|directory| - 1] == '/'
    requires 0 < |name| <= 255 && forall i :: 0 <= i < |name| ==> Portable(name[i])
    ensures SafeName(directory + name) == name
    ensures DownloadPath(now, SafeName(directory + name)) == "downloads/" + IntString(now) + "_" + name
  {
    hide SafeName, BaseName;
    NoSlash(name);
    NameIsStored(directory, name);
    StoredWhole(name, SafeName(directory + name));
  }

  lemma NoSlash(name: string)
    requires forall i :: 0 <= i < |name| ==> Portable(name[i])
    ensures '/' !in name
  {
  }

  lemma StoredWhole(name: string, stored: string)
    requires 0 < |name| <= 255 && (forall i :: 0 <= i < |name| ==> Portable(name[i])) && StoredAs(name, stored)
    ensures stored == name
  {
    hide Portable;
  }

  method SanitizeFilename(filename: string, dest: array<char>)
    requires dest.Length == SAFE_NAME_SIZE
    modifies dest
    ensures var r := SafeName(filename); dest[..|r|] == r && dest[|r|] == '\0'
  {
    var base := BaseName(filename);
    var writeIndex := 0;
    while writeIndex < |base| && writeIndex + 1 < dest.Length
      invariant 0 <= writeIndex <= |base| && writeIndex < dest.Length
      invariant forall i :: 0 <= i < writeIndex ==> dest[i] == if SafeChar(base[i]) then base[i] else '_'
    {
      dest[writeIndex] := if SafeChar(base[writeIndex]) then base[writeIndex] else '_';
      writeIndex := writeIndex + 1;
    }
    dest[writeIndex] := '\0';
    if writeIndex == 0 {
      forall i | 0 <= i < |DEFAULT_NAME| {
        dest[i] := DEFAULT_NAME[i];
      }
      dest[|DEFAULT_NAME|] := '\0';
      assert dest[..|DEFAULT_NAME|] == DEFAULT_NAME;
    } else {
      assert dest[..writeIndex] == SafeName(filename);
    }
  }

  // ----- one upload's stage, on values -----

  /** `open` is whether the stage has a file handle; `path` is "" when it has no staging file. */
  datatype Stage = Stage(open: bool, name: string, path: string, bytes: nat, sealed: bool)

  const NO_STAGE: Stage := Stage(false, "", "", 0, false)

  datatype Disk = Disk(staging: Directory, downloads: Directory)

  function StagingPath(now: int, token: string, name: string): string {
    "staging/" + IntString(now) + "_" + token + "_" + name
  }

  function DownloadPath(now: int, name: string): string {
    "downloads/" + IntString(now) + "_" + (if name != "" then name else DEFAULT_NAME)
  }

  // ----- which names can meet -----

  lemma {:induction false} NoUnderscore(n: nat)
    ensures '_' !in NatString(n)
  {
    if n >= 10 {
      NoUnderscore(n / 10);
    }
  }

  lemma NumberNoUnderscore(n: int)
    ensures '_' !in IntString(n)
  {
    NoUnderscore(if n < 0 then -n else n);
  }

  /** A text is cut at its first underscore in one way. */
  lemma CutOnce(a: string, x: string, b: string, y: string)
    requires '_' !in a && '_' !in b && a + "_" + x == b + "_" + y
    ensures a == b && x == y
  {
    var s := a + "_" + x;
    assert s[|a|] == '_' && s[|b|] == '_';
    assert forall i :: 0 <= i < |a| ==> s[i] == a[i];
    assert forall i :: 0 <= i < |b| ==> s[i] == b[i];
    assert s[..|a|] == a && s[..|b|] == b;
    assert s[|a| + 1..] == x && s[|b| + 1..] == y;
  }

  lemma NumbersDiffer(a: int, b: int)
    requires IntString(a) == IntString(b)
    ensures a == b
  {
    var m, n := if a < 0 then -a else a, if b < 0 then -b else b;
    DecimalRoundTrip(m);
    DecimalRoundTrip(n);
    assert a < 0 ==> IntString(a)[1..] == NatString(m);
    assert b < 0 ==> IntString(b)[1..] == NatString(n);
    assert IsDigit(NatString(m)[0]) && IsDigit(NatString(n)[0]);
  }

  /** Staging names with different tokens never meet, whatever the times and the file names. */
  lemma StagingNamesDiffer(now: int, token: string, name: string, now': int, token': string, name': string)
    requires '_' !in token && '_' !in token'
    requires StagingPath(now, token, name) == StagingPath(now', token', name')
    ensures token == token' && now == now' && name == name'
  {
    var head := "staging/";
    NumberNoUnderscore(now);
    NumberNoUnderscore(now');
    hide IntString;
    var rest, rest' := token + "_" + name, token' + "_" + name';
    assert StagingPath(now, token, name) == (head + IntString(now)) + "_" + rest;
    assert StagingPath(now', token', name') == (head + IntString(now')) + "_" + rest';
    CutOnce(head + IntString(now), rest, head + IntString(now'), rest');
    CutOnce(token, name, token', name');
    SameTail(head, IntString(now), IntString(now'));
    NumbersDiffer(now, now');
  }

  lemma SameTail(head: string, a: string, b: string)
    requires head + a == head + b
    ensures a == b
  {
    assert (head + a)[|head|..] == a && (head + b)[|head|..] == b;
  }

  /** Download names meet exactly when the same name is committed in the same second. */
  lemma DownloadNamesMeetIff(now: int, name: string, now': int, name': string)
    requires name != "" && name' != ""
    ensures DownloadPath(now, name) == DownloadPath(now', name') <==> now == now' && name == name'
  {
    if DownloadPath(now, name) == DownloadPath(now', name') {
      var head := "downloads/";
      NumberNoUnderscore(now);
      NumberNoUnderscore(now');
      hide IntString;
      assert DownloadPath(now, name) == (head + IntString(now)) + "_" + name;
      assert DownloadPath(now', name') == (head + IntString(now')) + "_" + name';
      CutOnce(head + IntString(now), name, head + IntString(now'), name');
      SameTail(head, IntString(now), IntString(now'));
      NumbersDiffer(now, now');
    }
  }

  /** Opening: the token is `None` when none could be generated, `created` is fopen's outcome. */
  function Open(d: Disk, filename: string, token: Option<string>, created: bool, now: int): (Stage, Disk, bool) {
    var name := SafeName(filename);
    if token.None? || !created then (NO_STAGE.(name := name), d, false)
    else
      var path := StagingPath(now, token.value, name);
      (Stage(true, name, path, 0, false), d.(staging := d.staging[path := File("", now)]), true)
  }

  /** Appending to the staged file, if it is still linked there. */
  function AppendTo(d: Disk, path: string, data: string, now: int): Disk {
    if path in d.staging then d.(staging := d.staging[path := File(d.staging[path].content + data, now)]) else d
  }

  /** Writing: `written` is how many of the bytes the file took. */
  function Write(s: Stage, d: Disk, data: string, maxSize: nat, written: nat, now: int): (Stage, Disk, bool) {
    if !s.open || s.bytes + |data| > maxSize then (s, d, false)
    else if written < |data| then (s, AppendTo(d, s.path, data[..written], now), false)
    else (s.(bytes := s.bytes + |data|), AppendTo(d, s.path, data, now), true)
  }

  function Seal(s: Stage, flushed: bool, closed: bool): (Stage, bool) {
    if s.sealed then (s, true)
    else if !s.open || !flushed then (s, false)
    else if !closed then (s.(open := false), false)
    else (s.(open := false, sealed := true), true)
  }

  /** Committing: rename fails if the staged file is gone, or for reasons of its own. */
  function Commit(s: Stage, d: Disk, flushed: bool, closed: bool, renamed: bool, now: int): (Stage, Disk, bool) {
    var (t, ok) := Seal(s, flushed, closed);
    if !ok || !renamed || t.path !in d.staging then (t, d, false)
    else
      (t.(path := ""),
       Disk(d.staging - {t.path}, d.downloads[DownloadPath(now, t.name) := d.staging[t.path]]),
       true)
  }

  function Abort(s: Stage, d: Disk): (Stage, Disk) {
    (NO_STAGE, if s.path == "" then d else d.(staging := d.staging - {s.path}))
  }

  // ----- the code -----

  class UploadStage {
    const store: FileStore
    var open: bool
    var name: string
    var path: string
    var bytes: nat
    var sealed: bool

    ghost function State(): Stage
      reads this
    {
      Stage(open, name, path, bytes, sealed)
    }

    ghost function DiskState(): Disk
      reads store
    {
      Disk(store.staging, store.downloads)
    }

    constructor (store: FileStore)
      ensures this.store == store && State() == NO_STAGE
    {
      this.store := store;
      open, name, path, bytes, sealed := false, "", "", 0, false;
    }

    method OpenFile(filename: string, token: Option<string>, created: bool, now: int) returns (ok: bool)
      modifies this, store
      ensures (State(), DiskState(), ok) == Open(old(DiskState()), filename, token, created, now)
    {
      open, name, path, bytes, sealed := false, SafeName(filename), "", 0, false;
      if token.None? {
        return false;
      }
      if !created {
        return false;
      }
      path := StagingPath(now, token.value, name);
      open := true;
      store.staging := store.staging[path := File("", now)];
      return true;
    }

    method WriteChunk(data: string, maxSize: nat, written: nat, now: int) returns (ok: bool)
      modifies this, store
      ensures (State(), DiskState(), ok) == Write(old(State()), old(DiskState()), data, maxSize, written, now)
    {
      if !open {
        return false;
      }
      if bytes + |data| > maxSize {
        return false;
      }
      var taken := if written < |data| then data[..written] else data;
      if path in store.staging {
        store.staging := store.staging[path := File(store.staging[path].content + taken, now)];
      }
      if written < |data| {
        return false;
      }
      bytes := bytes + |data|;
      return true;
    }

    method SealFile(flushed: bool, closed: bool) returns (ok: bool)
      modifies this
      ensures (State(), ok) == Seal(old(State()), flushed, closed)
    {
      if sealed {
        return true;
      }
      if !open {
        return false;
      }
      if !flushed {
        return false;
      }
      open := false;
      if !closed {
        return false;
      }
      sealed := true;
      return true;
    }

    method CommitFile(flushed: bool, closed: bool, renamed: bool, now: int) returns (ok: bool)
      modifies this, store
      ensures (State(), DiskState(), ok) == Commit(old(State()), old(DiskState()), flushed, closed, renamed, now)
    {
      ok := SealFile(flushed, closed);
      if !ok {
        return false;
      }
      if !renamed || path !in store.staging {
        return false;
      }
      store.downloads := store.downloads[DownloadPath(now, name) := store.staging[path]];
      store.staging := store.staging - {path};
      path := "";
      return true;
    }

    method AbortFile()
      modifies this, store
      ensures (State(), DiskState()) == Abort(old(State()), old(DiskState()))
    {
      if path != "" {
        var _ := store.Delete(path);
      }
      open, name, path, bytes, sealed := false, "", "", 0, false;
    }
  }
}
