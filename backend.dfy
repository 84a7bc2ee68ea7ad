/**
 * The underlying VFS (MEMFS in the browser build) and the files it opens,
 * seen only through the result codes they return.
 *
 * Their behaviour is not part of this model: each object is an oracle whose
 * answer to a call may depend on every call it has seen before.  The object
 * records the calls made on it, so the tracking layer can be shown to
 * forward each call exactly once, with its arguments unchanged, and to
 * return the answer it got.
 */
module Backend {
  import opened Sqlite

  /** A call through a real file's `sqlite3_io_methods`, with its scalar arguments. */
  datatype FileCall =
    | XClose
    | XRead(amount: int, offset: int)
    | XWrite(amount: int, offset: int)
    | XTruncate(size: int)
    | XSync(flags: int)
    | XFileSize
    | XLock(level: int)
    | XUnlock(level: int)
    | XCheckReservedLock
    | XFileControl(op: int)
    | XSectorSize
    | XDeviceCharacteristics

  /** The real file that lives behind a tracking file (`pReal`). */
  class RealFile {
    /** The result code of a call, given the calls made before it. */
    const respond: (seq<FileCall>, FileCall) -> int
    /** Every call made on this file so far, oldest first. */
    var log: seq<FileCall>

    constructor (respond: (seq<FileCall>, FileCall) -> int)
      ensures this.respond == respond && log == []
    {
      this.respond := respond;
      log := [];
    }

    /** Make one call; its result is what the oracle answers for it. */
    method Invoke(c: FileCall) returns (rc: int)
      modifies this
      ensures rc == respond(old(log), c)
      ensures log == old(log) + [c]
    {
      rc := respond(log, c);
      log := log + [c];
    }
  }

  /** A call through the real VFS's `sqlite3_vfs` methods, with its scalar arguments. */
  datatype VfsCall =
    | XOpen(zName: Option<string>, openFlags: int)
    | XDelete(name: string, syncDir: int)
    | XAccess(name: string, flags: int)
    | XFullPathname(name: string, nOut: int)

  /** The real VFS that the tracking VFS wraps (`g_state.pRealVfs`, `pAppData`). */
  class RealVfs {
    /** The result code of a call, given the calls made before it. */
    const respond: (seq<VfsCall>, VfsCall) -> int
    /** Every call made on this VFS so far, oldest first. */
    var log: seq<VfsCall>

    constructor (respond: (seq<VfsCall>, VfsCall) -> int)
      ensures this.respond == respond && log == []
    {
      this.respond := respond;
      log := [];
    }

    /** Make one call; its result is what the oracle answers for it. */
    method Invoke(c: VfsCall) returns (rc: int)
      modifies this
      ensures rc == respond(old(log), c)
      ensures log == old(log) + [c]
    {
      rc := respond(log, c);
      log := log + [c];
    }
  }
}
