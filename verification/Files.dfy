/** The two directories the program keeps files in, as maps from path to file; part of
    src/storage.c. Opening, deleting and renaming are the map operations one expects. */
module Files {

  const STAGING_RETENTION_SECONDS: int := 86400

  datatype File = File(content: string, mtime: int)

  type Directory = map<string, File>

  /** The staging directory after a sweep: what is older than `maxAge` is gone. */
  function Sweep(staging: Directory, maxAge: int, now: int): Directory {
    if maxAge <= 0 then staging
    else map path | path in staging && staging[path].mtime + maxAge > now :: staging[path]
  }

  class FileStore {
    var staging: Directory
    var downloads: Directory

    constructor ()
      ensures staging == map[] && downloads == map[]
    {
      staging, downloads := map[], map[];
    }

    /** unlink of a staging path; an empty path is refused. */
    method Delete(path: string) returns (ok: bool)
      modifies `staging
      ensures ok <==> path != "" && path in old(staging)
      ensures staging == if path == "" then old(staging) else old(staging) - {path}
    {
      if path == "" {
        return false;
      }
      ok := path in staging;
      staging := staging - {path};
    }

    /** One pass over the directory, in whatever order its entries come. */
    method CleanupExpiredStagingFiles(maxAge: int, now: int)
      modifies `staging
      ensures staging == Sweep(old(staging), maxAge, now)
      ensures forall path :: path in staging <==>
        path in old(staging) && (maxAge <= 0 || old(staging)[path].mtime + maxAge > now)
    {
      if maxAge <= 0 {
        return;
      }
      ghost var before := staging;
      var entries := staging.Keys;
      while entries != {}
        invariant entries <= before.Keys
        invariant staging == map path | path in before &&
          (path in entries || before[path].mtime + maxAge > now) :: before[path]
        decreases entries
      {
        var path :| path in entries;
        if staging[path].mtime + maxAge <= now {
          staging := staging - {path};
        }
        entries := entries - {path};
      }
    }
  }
}
